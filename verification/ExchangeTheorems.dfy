/**
 Runs of the exchange protocol: the invariant holds throughout, no service is ever stuck, every run
 is finite, and at its end the two secrets are swapped and everything else is as before.
 */
module ExchangeTheorems {
  import opened ServiceTree
  import opened Rendezvous
  import opened Exchange
  import opened ExchangeProofs

  lemma InvStep(l: Plan, net: Net, q: Path)
    requires Inv(l, net) && Enabled(l.c, net, q)
    ensures Inv(l, Step(l.c, net, q))
  {
    var net' := Step(l.c, net, q);
    assert NodeInv(l, net, q);
    StepHasEffect(l, net, q);
    SameDomains(l, net, q, net');
    forall u | u in net'.procs ensures NodeInv(l, net', u) {
      assert NodeInv(l, net, u);
      NodeStep(l, net, q, net', u);
    }
    forall u | u in net'.procs && l.On(u) && u != [] ensures EdgeInv(l, net', u) {
      PrefixIsPath(l.c.t, Parent(u), u);
      assert EdgeInv(l, net, u);
      EdgeStep(l, net, q, net', u);
    }
    MeetStep(l, net, q, net');
  }

  lemma SameDomains(l: Plan, net: Net, q: Path, net': Net)
    requires q in net.procs && q in net.down && q in net.up && Effect(l, net, q, net')
    ensures net'.procs.Keys == net.procs.Keys && net'.down.Keys == net.down.Keys && net'.up.Keys == net.up.Keys
  {
  }

  lemma StartNode(l: Plan, q: Path)
    requires l.Ok() && IsPath(l.c.t, q)
    ensures NodeInv(l, Start(l.c), q)
  {
    assert At(l.c.t, q).regs == RegsFor(l.pathA, l.pathB, q);
    if q == [] {
      ProgramForm(l.c, l.pathA, l.pathB, []);
    }
  }

  lemma StartEdge(l: Plan, net: Net, u: Path)
    requires u != [] && u in net.procs && u in net.down && u in net.up && Parent(u) in net.procs
    requires net.down[u] == net.up[u] == net.procs[u].handled == 0 && net.procs[Parent(u)].pc == 0
    ensures EdgeInv(l, net, u)
  {
  }

  lemma StartMeet(l: Plan)
    requires l.Ok()
    ensures MeetInv(l, Start(l.c))
  {
  }

  lemma StartInv(l: Plan)
    requires l.Ok()
    ensures Inv(l, Start(l.c))
  {
    var net := Start(l.c);
    forall q | q in net.procs ensures NodeInv(l, net, q) {
      StartNode(l, q);
    }
    forall u | u in net.procs && l.On(u) && u != [] ensures EdgeInv(l, net, u) {
      PrefixIsPath(l.c.t, Parent(u), u);
      StartEdge(l, net, u);
    }
    StartMeet(l);
  }

  lemma {:induction false} InvAlongRun(l: Plan, net: Net, run: seq<Path>, net': Net)
    requires Inv(l, net) && IsRun(l.c, net, run, net')
    ensures Inv(l, net')
    decreases |run|
  {
    if run != [] {
      InvStep(l, net, run[0]);
      InvAlongRun(l, Step(l.c, net, run[0]), run[1..], net');
    }
  }

  // ---------------------------------------------------------------------------------------------
  // Nobody is stuck

  predicate Finished(p: Proc) {
    p.handled == 1 && p.pc >= |p.program|
  }

  /** The service has the message and, except for the manager, has replied to it. */
  ghost predicate Through(l: Plan, p: Proc, u: Path) {
    p.handled == 1 && p.pc >= 2 * l.N(u) + l.M(u) + One(u != [])
  }

  /** The service is about to reset its registers. */
  predicate AtReset(p: Proc) {
    p.pc < |p.program| && p.program[p.pc] == Reset
  }

  /** The service can make a step other than its reset. */
  ghost predicate CanWork(l: Plan, net: Net, q: Path) {
    Enabled(l.c, net, q) && !AtReset(net.procs[q])
  }

  /** A service at work can move if what it is doing does not have to wait. */
  lemma CanMove(l: Plan, net: Net, q: Path)
    requires l.Ok() && IsPath(l.c.t, q) && q in net.procs && q in net.down && q in net.up
    requires Busy(l, net.procs[q], q) && net.procs[q].handled == 1
    requires match DoingOf(l, net.procs[q], q)
             case Waiting => false
             case Sending(j) => q + [l.KidsOf(q)[j]] in net.down
             case AtFifos => if q == l.pathA then CanTurnA(net.fifos) else CanTurnB(net.fifos)
             case Collecting(j) => var u := q + [l.KidsOf(q)[j]]; u in net.up && net.up[u] > 0
             case Replying => true
             case Resetting => true
    ensures Enabled(l.c, net, q) && (!DoingOf(l, net.procs[q], q).Resetting? ==> CanWork(l, net, q))
  {
    DoingIsRight(l, net.procs[q], q);
  }

  lemma NodeIsBusy(l: Plan, net: Net, q: Path)
    requires Inv(l, net) && q in net.procs && l.On(q)
    ensures IsPath(l.c.t, q) && q in net.down && q in net.up && Busy(l, net.procs[q], q)
  {
    assert NodeInv(l, net, q);
  }

  lemma TurnsLeft(l: Plan, p: Proc, q: Path)
    requires Busy(l, p, q) && p.handled == 1 && l.N(q) <= p.pc && TurnsDone(l, p, q) < l.M(q)
    ensures DoingOf(l, p, q).AtFifos?
  {
  }

  /** A service that still has to forward the message can do so. */
  lemma SenderCanMove(l: Plan, net: Net, q: Path)
    requires l.Ok() && Domains(l, net) && q in net.procs
    requires Busy(l, net.procs[q], q) && net.procs[q].handled == 1 && net.procs[q].pc < l.N(q)
    ensures CanWork(l, net, q)
  {
    KidIsOnRoute(l, q, net.procs[q].pc);
    CanMove(l, net, q);
  }

  /** The message can be read when it has been sent, and else sent by a parent that has it. */
  lemma MessageIsNear(l: Plan, net: Net, u: Path)
    requires l.Ok() && Domains(l, net) && u in net.procs && IsPath(l.c.t, u) && u != [] && EdgeInv(l, net, u)
    requires NodeInv(l, net, u) && l.On(u) && net.procs[u].handled == 0
    requires Slot(l, u) < l.N(Parent(u))
    requires Busy(l, net.procs[Parent(u)], Parent(u)) && net.procs[Parent(u)].handled == 1
    ensures CanWork(l, net, if Passed(net.procs[Parent(u)], Slot(l, u)) then u else Parent(u))
  {
    if !Passed(net.procs[Parent(u)], Slot(l, u)) {
      SenderCanMove(l, net, Parent(u));
    }
  }

  /** While a service on the route has not had the message, it or a service above it can move. */
  lemma {:induction false} MessageCanTravel(l: Plan, net: Net, u: Path) returns (q: Path)
    requires Inv(l, net) && u in net.procs && l.On(u) && net.procs[u].handled == 0
    ensures CanWork(l, net, q)
    decreases |u|
  {
    assert NodeInv(l, net, u);
    assert EdgeInv(l, net, u);
    SlotIsKid(l, u);
    var r := Parent(u);
    NodeIsBusy(l, net, r);
    if net.procs[r].handled == 0 {
      q := MessageCanTravel(l, net, r);
    } else {
      MessageIsNear(l, net, u);
      q := if Passed(net.procs[r], Slot(l, u)) then u else r;
    }
  }

  /** While the meeting is not over, one of the two services can move. */
  lemma MeetingCanGoOn(l: Plan, net: Net) returns (q: Path)
    requires Inv(l, net) && net.procs[l.pathA].handled == 1 && net.procs[l.pathB].handled == 1
    requires net.fifos.turnsA < TURNS_A || net.fifos.turnsB < TURNS_B
    ensures CanWork(l, net, q)
  {
    var a, b := net.procs[l.pathA], net.procs[l.pathB];
    NodeIsBusy(l, net, l.pathA);
    NodeIsBusy(l, net, l.pathB);
    if a.pc < l.N(l.pathA) {
      SenderCanMove(l, net, l.pathA);
      q := l.pathA;
    } else if b.pc < l.N(l.pathB) {
      SenderCanMove(l, net, l.pathB);
      q := l.pathB;
    } else {
      NeverBothWait(net.fifos, l.c.a, l.SecretAt(l.pathA), a.secret, l.c.b, l.SecretAt(l.pathB), b.secret);
      q := if net.fifos.turnsA < TURNS_A && CanTurnA(net.fifos) then l.pathA else l.pathB;
      TurnsOfBoth(l);
      TurnsLeft(l, net.procs[q], q);
      CanMove(l, net, q);
    }
  }

  /** Everybody has the message and the meeting is over. */
  ghost predicate Draining(l: Plan, net: Net) {
    && l.Ok() && Domains(l, net)
    && forall v :: v in net.procs && l.On(v) ==> DrainingAt(l, net, v)
  }

  ghost predicate DrainingAt(l: Plan, net: Net, v: Path)
    requires v in net.procs
  {
    && Busy(l, net.procs[v], v) && net.procs[v].handled == 1 && !DoingOf(l, net.procs[v], v).AtFifos?
    && (v != [] ==> EdgeInv(l, net, v))
  }

  lemma StartsDraining(l: Plan, net: Net)
    requires Inv(l, net) && forall v :: v in net.procs && l.On(v) ==> net.procs[v].handled == 1
    requires net.fifos.turnsA == TURNS_A && net.fifos.turnsB == TURNS_B
    ensures Draining(l, net)
  {
    forall v | v in net.procs && l.On(v) ensures DrainingAt(l, net, v) {
      NodeIsBusy(l, net, v);
      MeetingIsOver(l, net, v);
    }
  }

  /** The kid from which a service is about to read its reply number j. */
  lemma KidToCollect(l: Plan, u: Path, j: nat)
    requires l.Ok() && j < l.N(u)
    ensures var kid := u + [l.KidsOf(u)[j]];
            l.On(kid) && IsPath(l.c.t, kid) && kid != [] && Parent(kid) == u && Slot(l, kid) == j
  {
    KidIsOnRoute(l, u, j);
    NeatKids(l, u);
    SlotOfKid(l, u, j);
  }

  /** Then the replies can travel back. */
  lemma {:induction false} RepliesCanTravel(l: Plan, net: Net, u: Path) returns (q: Path)
    requires Draining(l, net) && u in net.procs && l.On(u) && !Through(l, net.procs[u], u)
    ensures CanWork(l, net, q)
    decreases |l.pathA| + |l.pathB| - |u|
  {
    assert DrainingAt(l, net, u);
    var d := DoingOf(l, net.procs[u], u);
    q := u;
    if d.Collecting? {
      KidToCollect(l, u, d.j);
      var kid := u + [l.KidsOf(u)[d.j]];
      assert DrainingAt(l, net, kid);
      if Through(l, net.procs[kid], kid) {
        CollectorCanMove(l, net, u, d.j);
      } else {
        q := RepliesCanTravel(l, net, kid);
      }
    } else {
      OthersNeedNotWait(l, net, u);
    }
  }

  lemma OthersNeedNotWait(l: Plan, net: Net, u: Path)
    requires l.Ok() && Domains(l, net) && u in net.procs && DrainingAt(l, net, u) && !Through(l, net.procs[u], u)
    requires !DoingOf(l, net.procs[u], u).Collecting?
    ensures CanWork(l, net, u)
  {
    if DoingOf(l, net.procs[u], u).Sending? {
      SenderCanMove(l, net, u);
    } else {
      CanMove(l, net, u);
    }
  }

  lemma CollectorCanMove(l: Plan, net: Net, u: Path, j: nat)
    requires l.Ok() && IsPath(l.c.t, u) && u in net.procs && u in net.down && u in net.up
    requires Busy(l, net.procs[u], u) && net.procs[u].handled == 1 && DoingOf(l, net.procs[u], u) == Collecting(j)
    requires var kid := u + [l.KidsOf(u)[j]];
             Parent(kid) == u && Slot(l, kid) == j && EdgeInv(l, net, kid) && Through(l, net.procs[kid], kid)
    ensures CanWork(l, net, u)
  {
    ReplyHasCome(l, net, u, j);
    CanMove(l, net, u);
  }

  lemma ReplyHasCome(l: Plan, net: Net, u: Path, j: nat)
    requires j < l.N(u) && u in net.procs && net.procs[u].handled == 1 && net.procs[u].pc == l.N(u) + l.M(u) + j
    requires var kid := u + [l.KidsOf(u)[j]];
             Parent(kid) == u && Slot(l, kid) == j && EdgeInv(l, net, kid) && Through(l, net.procs[kid], kid)
    ensures net.up[u + [l.KidsOf(u)[j]]] > 0
  {
  }

  lemma MeetingIsOver(l: Plan, net: Net, u: Path)
    requires l.Ok() && l.pathA in net.procs && l.pathB in net.procs && MeetInv(l, net) && u in net.procs
    requires net.fifos.turnsA == TURNS_A && net.fifos.turnsB == TURNS_B && net.procs[u].handled == 1
    ensures !DoingOf(l, net.procs[u], u).AtFifos?
  {
    assert l.turns(u) == NumTurns(l.pathA, l.pathB, u);
    TurnsOfBoth(l);
  }

  /** As long as a service on the route has not replied, some service can make a step other than its reset. */
  lemma SomebodyCanWork(l: Plan, net: Net, u: Path) returns (q: Path)
    requires Inv(l, net) && u in net.procs && l.On(u) && !Through(l, net.procs[u], u)
    ensures CanWork(l, net, q)
  {
    if v :| v in net.procs && l.On(v) && net.procs[v].handled != 1 {
      assert NodeInv(l, net, v);
      q := MessageCanTravel(l, net, v);
    } else if net.fifos.turnsA < TURNS_A || net.fifos.turnsB < TURNS_B {
      q := MeetingCanGoOn(l, net);
    } else {
      StartsDraining(l, net);
      q := RepliesCanTravel(l, net, u);
    }
  }

  lemma ResetCanHappen(l: Plan, net: Net, u: Path)
    requires l.Ok() && IsPath(l.c.t, u) && u in net.procs && u in net.down && u in net.up
    requires Busy(l, net.procs[u], u) && Through(l, net.procs[u], u) && !Finished(net.procs[u])
    ensures Enabled(l.c, net, u)
  {
    CanMove(l, net, u);
  }

  /** As long as a service on the route is not finished, some service can move. */
  lemma NobodyIsStuck(l: Plan, net: Net, u: Path) returns (q: Path)
    requires Inv(l, net) && u in net.procs && l.On(u) && !Finished(net.procs[u])
    ensures Enabled(l.c, net, q)
  {
    if Through(l, net.procs[u], u) {
      NodeIsBusy(l, net, u);
      ResetCanHappen(l, net, u);
      q := u;
    } else {
      q := SomebodyCanWork(l, net, u);
    }
  }

  // ---------------------------------------------------------------------------------------------
  // Every run is finite

  /** The steps left for a service: receiving the message and running its program. */
  function StepsLeft(l: Plan, p: Proc, q: Path): nat {
    if p.handled == 0 then 2 * l.N(q) + l.M(q) + 3
    else if p.pc < |p.program| then |p.program| - p.pc
    else 0
  }

  /** The steps left for the services on the first i places of a path. */
  function PathSteps(l: Plan, net: Net, p: Path, i: nat): nat
    requires i <= |p| && forall j :: 0 <= j <= i ==> p[..j] in net.procs
  {
    StepsLeft(l, net.procs[p[..i]], p[..i]) + if i == 0 then 0 else PathSteps(l, net, p, i - 1)
  }

  lemma StepIsSpent(l: Plan, net: Net, q: Path, net': Net)
    requires q in net.procs && q in net.down && q in net.up && Busy(l, net.procs[q], q) && Effect(l, net, q, net')
    ensures q in net'.procs && StepsLeft(l, net'.procs[q], q) == StepsLeft(l, net.procs[q], q) - 1
  {
    EffectOnSelf(l, net, q, net');
  }

  lemma {:induction false} PathStepsAreSpent(l: Plan, net: Net, q: Path, net': Net, p: Path, i: nat)
    requires i <= |p| && forall j :: 0 <= j <= i ==> p[..j] in net.procs && p[..j] in net'.procs
    requires q in net.procs && q in net'.procs && StepsLeft(l, net'.procs[q], q) == StepsLeft(l, net.procs[q], q) - 1
    requires forall u :: u in net.procs && u != q ==> u in net'.procs && net'.procs[u] == net.procs[u]
    ensures PathSteps(l, net', p, i) == PathSteps(l, net, p, i) - One(q <= p && |q| <= i)
  {
    assert p[..i] == q <==> q <= p && |q| == i;
    if i > 0 {
      PathStepsAreSpent(l, net, q, net', p, i - 1);
    }
  }

  /** The steps left in the whole exchange; services on both paths are counted twice. */
  function AllSteps(l: Plan, net: Net): nat
    requires forall j :: 0 <= j <= |l.pathA| ==> l.pathA[..j] in net.procs
    requires forall j :: 0 <= j <= |l.pathB| ==> l.pathB[..j] in net.procs
  {
    PathSteps(l, net, l.pathA, |l.pathA|) + PathSteps(l, net, l.pathB, |l.pathB|)
  }

  lemma PrefixesExist(l: Plan, net: Net)
    requires l.Ok() && Domains(l, net)
    ensures forall j :: 0 <= j <= |l.pathA| ==> l.pathA[..j] in net.procs
    ensures forall j :: 0 <= j <= |l.pathB| ==> l.pathB[..j] in net.procs
  {
    forall j | 0 <= j <= |l.pathA| ensures l.pathA[..j] in net.procs {
      PrefixIsPath(l.c.t, l.pathA[..j], l.pathA);
    }
    forall j | 0 <= j <= |l.pathB| ensures l.pathB[..j] in net.procs {
      PrefixIsPath(l.c.t, l.pathB[..j], l.pathB);
    }
  }

  lemma AllStepsAreSpent(l: Plan, net: Net, q: Path, net': Net)
    requires l.Ok() && Domains(l, net) && Domains(l, net')
    requires q in net.procs && l.On(q) && Busy(l, net.procs[q], q) && Effect(l, net, q, net')
    ensures forall j :: 0 <= j <= |l.pathA| ==> l.pathA[..j] in net.procs && l.pathA[..j] in net'.procs
    ensures forall j :: 0 <= j <= |l.pathB| ==> l.pathB[..j] in net.procs && l.pathB[..j] in net'.procs
    ensures AllSteps(l, net') < AllSteps(l, net)
  {
    PrefixesExist(l, net);
    PrefixesExist(l, net');
    StepIsSpent(l, net, q, net');
    forall u | u in net.procs && u != q ensures u in net'.procs && net'.procs[u] == net.procs[u] {
      EffectAt(l, net, q, net', u);
    }
    PathStepsAreSpent(l, net, q, net', l.pathA, |l.pathA|);
    PathStepsAreSpent(l, net, q, net', l.pathB, |l.pathB|);
  }

  lemma {:induction false} RunLength(l: Plan, net: Net, run: seq<Path>, net': Net)
    requires Inv(l, net) && IsRun(l.c, net, run, net')
    ensures forall j :: 0 <= j <= |l.pathA| ==> l.pathA[..j] in net.procs
    ensures forall j :: 0 <= j <= |l.pathB| ==> l.pathB[..j] in net.procs
    ensures |run| <= AllSteps(l, net)
    decreases |run|
  {
    PrefixesExist(l, net);
    if run != [] {
      InvStep(l, net, run[0]);
      assert NodeInv(l, net, run[0]);
      StepHasEffect(l, net, run[0]);
      AllStepsAreSpent(l, net, run[0], Step(l.c, net, run[0]));
      RunLength(l, Step(l.c, net, run[0]), run[1..], net');
    }
  }

  // ---------------------------------------------------------------------------------------------
  // The main results

  /** The secret that the service at q has to end up with. */
  function SwappedSecret(c: Setup, pathA: Path, pathB: Path, q: Path): nat
    requires IsPath(c.t, pathA) && IsPath(c.t, pathB) && IsPath(c.t, q)
  {
    if q == pathA then At(c.t, pathB).secret
    else if q == pathB then At(c.t, pathA).secret
    else At(c.t, q).secret
  }

  /** The invariant holds in every state of every run. */
  lemma RunInv(c: Setup, pathA: Path, pathB: Path, run: seq<Path>, net: Net) returns (l: Plan)
    requires Proper(c, pathA, pathB) && IsRun(c, Start(c), run, net)
    ensures l.c == c && l.pathA == pathA && l.pathB == pathB && Inv(l, Start(c)) && Inv(l, net)
  {
    l := PlanFor(c, pathA, pathB);
    StartInv(l);
    InvAlongRun(l, Start(c), run, net);
  }

  // ---------------------------------------------------------------------------------------------
  // The manager's return

  /** The manager has read its last reply: only lines 451-454 are left, in which it prints and resets. */
  predicate ManagerReturns(net: Net) {
    [] in net.procs && net.procs[[]].pc >= |net.procs[[]].program| - 1
  }

  /** Nothing is left to do for a service but, perhaps, to reset its registers before it reads again. */
  predicate OnlyResets(p: Proc) {
    p.pc >= |p.program| || (p.pc == |p.program| - 1 && AtReset(p))
  }

  /** The registers with which a service reads its next message. */
  function NextRegs(p: Proc): Regs {
    if AtReset(p) then UNSET else p.regs
  }

  /** The exchange is complete, compared with the tree it started from, but for resets still to come. */
  ghost predicate Settled(c: Setup, pathA: Path, pathB: Path, net: Net)
    requires IsPath(c.t, pathA) && IsPath(c.t, pathB)
  {
    && net.procs.Keys == net.down.Keys == net.up.Keys == Paths(c.t)
    && (forall q :: q in net.procs ==>
          && OnlyResets(net.procs[q]) && NextRegs(net.procs[q]) == UNSET
          && net.procs[q].handled == One(OnRoute(pathA, pathB, q))
          && net.procs[q].secret == SwappedSecret(c, pathA, pathB, q)
          && net.down[q] == 0 && net.up[q] == 0)
    && net.fifos.toA == net.fifos.toB == []
    && net.fifos.reports == [Report(c.a, At(c.t, pathB).secret), Report(c.b, At(c.t, pathA).secret)]
  }

  /** What lies between a service and a parent that has read all replies. */
  lemma ReplyWasRead(l: Plan, net: Net, u: Path)
    requires u != [] && EdgeInv(l, net, u) && Slot(l, u) < l.N(Parent(u))
    requires Busy(l, net.procs[u], u) && net.procs[Parent(u)].handled == 1
    requires net.procs[Parent(u)].pc >= 2 * l.N(Parent(u)) + l.M(Parent(u))
    ensures Through(l, net.procs[u], u) && net.down[u] == 0 && net.up[u] == 0
  {
  }

  /** When the manager has read its replies, every service on the route has replied and its pipes are empty. */
  lemma {:induction false} AllThrough(l: Plan, net: Net, u: Path)
    requires Inv(l, net) && ManagerReturns(net) && u in net.procs && l.On(u)
    ensures Through(l, net.procs[u], u) && net.down[u] == 0 && net.up[u] == 0
    decreases |u|
  {
    NodeIsBusy(l, net, u);
    assert NodeInv(l, net, u);
    if u != [] {
      SlotIsKid(l, u);
      assert EdgeInv(l, net, u);
      AllThrough(l, net, Parent(u));
      ReplyWasRead(l, net, u);
    }
  }

  lemma ThroughMeansReset(l: Plan, p: Proc, u: Path)
    requires l.Ok() && Formed(u == [], l.KidsOf(u), l.M(u), p.program) && Through(l, p, u)
    ensures OnlyResets(p) && TurnsDone(l, p, u) == l.M(u)
  {
  }

  lemma NodeAtReturn(l: Plan, net: Net, q: Path)
    requires Inv(l, net) && ManagerReturns(net) && q in net.procs
    ensures OnlyResets(net.procs[q]) && NextRegs(net.procs[q]) == UNSET
    ensures net.procs[q].handled == One(l.On(q)) && net.down[q] == 0 && net.up[q] == 0
    ensures q != l.pathA && q != l.pathB ==> net.procs[q].secret == l.SecretAt(q)
    ensures l.On(q) ==> TurnsDone(l, net.procs[q], q) == l.M(q)
  {
    assert NodeInv(l, net, q);
    if l.On(q) {
      AllThrough(l, net, q);
      ThroughMeansReset(l, net.procs[q], q);
    }
  }

  /** The meeting is over when the manager returns. */
  lemma MeetingAtReturn(l: Plan, net: Net)
    requires Inv(l, net) && ManagerReturns(net)
    ensures net.procs[l.pathA].secret == l.SecretAt(l.pathB) && net.procs[l.pathB].secret == l.SecretAt(l.pathA)
    ensures net.fifos.toA == net.fifos.toB == []
    ensures net.fifos.reports == [Report(l.c.a, l.SecretAt(l.pathB)), Report(l.c.b, l.SecretAt(l.pathA))]
  {
    NodeAtReturn(l, net, l.pathA);
    NodeAtReturn(l, net, l.pathB);
    TurnsOfBoth(l);
  }

  lemma SettledAtReturn(l: Plan, net: Net)
    requires Inv(l, net) && ManagerReturns(net)
    ensures Settled(l.c, l.pathA, l.pathB, net)
  {
    MeetingAtReturn(l, net);
    forall q | q in net.procs
      ensures OnlyResets(net.procs[q]) && NextRegs(net.procs[q]) == UNSET
      ensures net.procs[q].handled == One(l.On(q)) && net.down[q] == 0 && net.up[q] == 0
      ensures net.procs[q].secret == SwappedSecret(l.c, l.pathA, l.pathB, q)
    {
      NodeAtReturn(l, net, q);
    }
  }

  /**
   In every interleaving, once the manager has read its last reply and is about to print that the
   secrets have been exchanged, they have: every service on the route has handled the message once
   and replied, all pipes and FIFOs are empty, exactly the two secrets are swapped, both reports are
   out, in order, and all that any service can still do is to reset its registers.
   */
  lemma ManagerReturnsAfterSwap(c: Setup, pathA: Path, pathB: Path, run: seq<Path>, net: Net)
    requires Proper(c, pathA, pathB) && IsRun(c, Start(c), run, net) && ManagerReturns(net)
    ensures Settled(c, pathA, pathB, net)
    ensures forall q :: Enabled(c, net, q) ==> AtReset(net.procs[q])
  {
    var l := RunInv(c, pathA, pathB, run, net);
    SettledAtReturn(l, net);
  }

  // ---------------------------------------------------------------------------------------------
  // The end

  /** The exchange is complete and all registers are reset. */
  ghost predicate Swapped(c: Setup, pathA: Path, pathB: Path, net: Net)
    requires IsPath(c.t, pathA) && IsPath(c.t, pathB)
  {
    Settled(c, pathA, pathB, net) && forall q :: q in net.procs ==> net.procs[q].regs == UNSET
  }

  lemma FinishedIsReset(l: Plan, net: Net, q: Path)
    requires Inv(l, net) && q in net.procs && (l.On(q) ==> Finished(net.procs[q]))
    ensures net.procs[q].regs == UNSET
  {
    assert NodeInv(l, net, q);
  }

  lemma StillMeansSwapped(l: Plan, net: Net)
    requires Inv(l, net) && forall q :: q in net.procs ==> !Enabled(l.c, net, q)
    ensures Swapped(l.c, l.pathA, l.pathB, net)
  {
    forall u | u in net.procs && l.On(u) ensures Finished(net.procs[u]) {
      if !Finished(net.procs[u]) {
        var q := NobodyIsStuck(l, net, u);
      }
    }
    assert l.On([]) && [] in net.procs;
    SettledAtReturn(l, net);
    forall q | q in net.procs ensures net.procs[q].regs == UNSET {
      FinishedIsReset(l, net, q);
    }
  }

  /**
   In every interleaving, when no service can move any more, every service on the route has handled
   the message once and no other service has, all pipes and FIFOs are empty, all registers are -1,
   the two secrets are swapped and all others unchanged, and the first-named service has reported
   before the second.
   */
  lemma ExchangeCompletes(c: Setup, pathA: Path, pathB: Path, run: seq<Path>, net: Net)
    requires Proper(c, pathA, pathB) && IsRun(c, Start(c), run, net)
    requires forall q :: !Enabled(c, net, q)
    ensures Swapped(c, pathA, pathB, net)
  {
    var l := RunInv(c, pathA, pathB, run, net);
    StillMeansSwapped(l, net);
  }

  /** An interleaving that cannot go on has come past the manager's return. */
  lemma RestMeansReturn(c: Setup, pathA: Path, pathB: Path, run: seq<Path>, net: Net)
    requires Proper(c, pathA, pathB) && IsRun(c, Start(c), run, net)
    requires forall q :: !Enabled(c, net, q)
    ensures ManagerReturns(net)
  {
    var l := RunInv(c, pathA, pathB, run, net);
    assert l.On([]) && [] in net.procs;
    if !Finished(net.procs[[]]) {
      var q := NobodyIsStuck(l, net, []);
    }
  }

  // ---------------------------------------------------------------------------------------------
  // Late resets

  /** In this interleaving the service at q still has its registers set when the manager returns. */
  ghost predicate LateReset(c: Setup, run: seq<Path>, net: Net, q: Path) {
    IsRun(c, Start(c), run, net) && ManagerReturns(net) && q in net.procs && q != [] && net.procs[q].regs != UNSET
  }

  /** No service but the manager has come to the end of its program. */
  ghost predicate NoneReset(net: Net) {
    forall q :: q in net.procs && q != [] && net.procs[q].handled == 1 ==> net.procs[q].pc < |net.procs[q].program|
  }

  /** A step other than a reset does not bring a service to the end of its program. */
  lemma WorkKeepsNoneReset(l: Plan, net: Net, q: Path)
    requires Inv(l, net) && CanWork(l, net, q) && NoneReset(net)
    ensures NoneReset(Step(l.c, net, q))
  {
    var net' := Step(l.c, net, q);
    assert NodeInv(l, net, q);
    StepHasEffect(l, net, q);
    SameDomains(l, net, q, net');
    forall u | u in net'.procs && u != [] && net'.procs[u].handled == 1
      ensures net'.procs[u].pc < |net'.procs[u].program|
    {
      if u == q {
        WorkIsNotLast(l, net, q);
      } else {
        EffectAt(l, net, q, net', u);
      }
    }
  }

  lemma WorkIsNotLast(l: Plan, net: Net, q: Path)
    requires l.Ok() && CanWork(l, net, q) && NodeInv(l, net, q) && l.On(q)
    requires Effect(l, net, q, Step(l.c, net, q))
    ensures Step(l.c, net, q).procs[q].pc < |Step(l.c, net, q).procs[q].program|
  {
    if net.procs[q].handled == 1 {
      DoingIsRight(l, net.procs[q], q);
    }
  }

  /** While the manager has not returned, there is a step that puts off all resets. */
  lemma LazyStep(l: Plan, net: Net) returns (q: Path, next: Net)
    requires Inv(l, net) && NoneReset(net) && !ManagerReturns(net)
    ensures Enabled(l.c, net, q) && next == Step(l.c, net, q) && Inv(l, next) && NoneReset(next)
    ensures forall j :: 0 <= j <= |l.pathA| ==> l.pathA[..j] in net.procs && l.pathA[..j] in next.procs
    ensures forall j :: 0 <= j <= |l.pathB| ==> l.pathB[..j] in net.procs && l.pathB[..j] in next.procs
    ensures AllSteps(l, next) < AllSteps(l, net)
  {
    q := ManagerWaits(l, net);
    next := Step(l.c, net, q);
    InvStep(l, net, q);
    WorkKeepsNoneReset(l, net, q);
    assert NodeInv(l, net, q);
    StepHasEffect(l, net, q);
    AllStepsAreSpent(l, net, q, next);
  }

  lemma ManagerWaits(l: Plan, net: Net) returns (q: Path)
    requires Inv(l, net) && !ManagerReturns(net)
    ensures CanWork(l, net, q)
  {
    assert l.On([]) && [] in net.procs;
    assert NodeInv(l, net, []);
    q := SomebodyCanWork(l, net, []);
  }

  /** The services can put off all resets until the manager returns. */
  lemma {:induction false} LazyRun(l: Plan, net: Net) returns (run: seq<Path>, net': Net)
    requires Inv(l, net) && NoneReset(net)
    requires forall j :: 0 <= j <= |l.pathA| ==> l.pathA[..j] in net.procs
    requires forall j :: 0 <= j <= |l.pathB| ==> l.pathB[..j] in net.procs
    ensures IsRun(l.c, net, run, net') && Inv(l, net') && NoneReset(net') && ManagerReturns(net')
    decreases AllSteps(l, net)
  {
    if ManagerReturns(net) {
      return [], net;
    }
    var q, next := LazyStep(l, net);
    run, net' := LazyRun(l, next);
    RunBegins(l.c, net, q, run, net');
    run := [q] + run;
  }

  lemma RunBegins(c: Setup, net: Net, q: Path, run: seq<Path>, net': Net)
    requires Enabled(c, net, q) && IsRun(c, Step(c, net, q), run, net')
    ensures IsRun(c, net, [q] + run, net')
  {
    assert ([q] + run)[1..] == run;
  }

  /** Above a target a register is set until the reset. */
  lemma SetUntilReset(l: Plan, net: Net, q: Path)
    requires q in net.procs && q in net.down && q in net.up && IsPath(l.c.t, q) && NodeInv(l, net, q)
    requires q < l.pathA || q < l.pathB
    requires net.procs[q].handled == 1 && net.procs[q].pc < |net.procs[q].program|
    ensures net.procs[q].regs != UNSET
  {
    assert RegsFor(l.pathA, l.pathB, q) != UNSET;
  }

  lemma UnresetIsSet(l: Plan, net: Net, q: Path)
    requires Inv(l, net) && ManagerReturns(net) && NoneReset(net)
    requires q != [] && (q < l.pathA || q < l.pathB)
    ensures q in net.procs && net.procs[q].regs != UNSET
  {
    PrefixIsPath(l.c.t, q, if q < l.pathA then l.pathA else l.pathB);
    assert q in net.procs;
    assert NodeInv(l, net, q);
    AllThrough(l, net, q);
    SetUntilReset(l, net, q);
  }

  /** Next to the manager there are no registers to reset. */
  lemma NothingToReset(l: Plan, net: Net, q: Path)
    requires q in net.procs && q in net.down && q in net.up && IsPath(l.c.t, q) && NodeInv(l, net, q)
    requires q != [] && |l.pathA| <= 1 && |l.pathB| <= 1
    ensures net.procs[q].regs == UNSET
  {
    assert RegsFor(l.pathA, l.pathB, q) == UNSET;
  }

  /**
   A service can still have its registers set when the manager returns, in some interleaving, if and
   only if one of the two services is more than one level below the manager.
   */
  lemma LateResetIffDeep(c: Setup, pathA: Path, pathB: Path)
    requires Proper(c, pathA, pathB)
    ensures (exists run, net, q :: LateReset(c, run, net, q)) <==> |pathA| > 1 || |pathB| > 1
  {
    var l := PlanFor(c, pathA, pathB);
    StartInv(l);
    if |pathA| > 1 || |pathB| > 1 {
      PrefixesExist(l, Start(c));
      var run, net := LazyRun(l, Start(c));
      var q := if |pathA| > 1 then pathA[..1] else pathB[..1];
      UnresetIsSet(l, net, q);
      assert LateReset(c, run, net, q);
    } else {
      forall run, net, q | LateReset(c, run, net, q) ensures false {
        InvAlongRun(l, Start(c), run, net);
        assert NodeInv(l, net, q);
        NothingToReset(l, net, q);
      }
    }
  }

  /** A bound on the length of every interleaving, fixed when the exchange starts. */
  function Bound(c: Setup, pathA: Path, pathB: Path): nat
    requires forall j :: 0 <= j <= |pathA| ==> pathA[..j] in Start(c).procs
    requires forall j :: 0 <= j <= |pathB| ==> pathB[..j] in Start(c).procs
  {
    AllSteps(PlanFor(c, pathA, pathB), Start(c))
  }

  /** Every interleaving is finite. */
  lemma ExchangeTerminates(c: Setup, pathA: Path, pathB: Path, run: seq<Path>, net: Net)
    requires Proper(c, pathA, pathB) && IsRun(c, Start(c), run, net)
    ensures forall j :: 0 <= j <= |pathA| ==> pathA[..j] in Start(c).procs
    ensures forall j :: 0 <= j <= |pathB| ==> pathB[..j] in Start(c).procs
    ensures |run| <= Bound(c, pathA, pathB)
  {
    var l := PlanFor(c, pathA, pathB);
    StartInv(l);
    RunLength(l, Start(c), run, net);
  }

  /** The service at q and its pipes, at any time. */
  lemma OrderlyAt(l: Plan, net: Net, q: Path)
    requires Inv(l, net) && IsPath(l.c.t, q)
    ensures q in net.procs && q in net.down && q in net.up
    ensures net.procs[q].handled + net.down[q] <= One(l.On(q)) && net.up[q] <= net.procs[q].handled
  {
    assert q in net.procs;
    assert NodeInv(l, net, q);
    if l.On(q) && q != [] {
      assert EdgeInv(l, net, q);
    }
  }

  lemma OrderlyReports(l: Plan, net: Net)
    requires Inv(l, net)
    ensures net.fifos.reports <= [Report(l.c.a, l.SecretAt(l.pathB)), Report(l.c.b, l.SecretAt(l.pathA))]
  {
    ReportsInOrder(net.fifos, l.c.a, l.SecretAt(l.pathA), net.procs[l.pathA].secret,
                   l.c.b, l.SecretAt(l.pathB), net.procs[l.pathB].secret);
  }

  /**
   In every state on the way, no pipe holds more than one message, nobody gets the message twice or
   replies before getting it, and the second-named service has not reported before the first.
   */
  lemma ExchangeIsOrderly(c: Setup, pathA: Path, pathB: Path, run: seq<Path>, net: Net, q: Path)
    requires Proper(c, pathA, pathB) && IsRun(c, Start(c), run, net) && IsPath(c.t, q)
    ensures q in net.procs && q in net.down && q in net.up
    ensures net.procs[q].handled + net.down[q] <= One(OnRoute(pathA, pathB, q)) && net.up[q] <= net.procs[q].handled
    ensures net.fifos.reports <= [Report(c.a, At(c.t, pathB).secret), Report(c.b, At(c.t, pathA).secret)]
  {
    var l := RunInv(c, pathA, pathB, run, net);
    OrderlyAt(l, net, q);
    OrderlyReports(l, net);
  }
}
