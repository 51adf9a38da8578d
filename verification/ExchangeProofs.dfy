/**
 Every interleaving of the services during an exchange keeps the invariant below, can go on until
 all services are idle again, and has then swapped exactly the two secrets.
 */
module ExchangeProofs {
  import opened ServiceTree
  import opened Rendezvous
  import opened Exchange

  /**
   An exchange together with the paths of its two services. For every service, `kids` gives the
   children it forwards the message to and `turns` the number of its operations on the FIFOs.
   */
  datatype Plan = Plan(c: Setup, pathA: Path, pathB: Path, kids: Path -> seq<nat>, turns: Path -> nat) {
    ghost predicate Ok() {
      && Proper(c, pathA, pathB)
      && (forall q {:trigger Kids(pathA, pathB, q)} :: kids(q) == Kids(pathA, pathB, q))
      && (forall q {:trigger NumTurns(pathA, pathB, q)} :: turns(q) == NumTurns(pathA, pathB, q))
    }
    predicate On(q: Path) { OnRoute(pathA, pathB, q) }
    function KidsOf(q: Path): seq<nat> { kids(q) }
    function N(q: Path): nat { |kids(q)| }
    function M(q: Path): nat { turns(q) }
    function SecretAt(q: Path): nat requires IsPath(c.t, q) { At(c.t, q).secret }
  }

  function PlanFor(c: Setup, pathA: Path, pathB: Path): Plan {
    Plan(c, pathA, pathB, q => Kids(pathA, pathB, q), q => NumTurns(pathA, pathB, q))
  }

  // ---------------------------------------------------------------------------------------------
  // The invariant

  ghost predicate Domains(l: Plan, net: Net) {
    net.procs.Keys == net.down.Keys == net.up.Keys == Paths(l.c.t)
  }

  /** What one service looks like: untouched off the route; waiting, at work, or done on it. */
  ghost predicate NodeInv(l: Plan, net: Net, q: Path)
    requires q in net.procs && q in net.down && q in net.up && IsPath(l.c.t, q)
  {
    var p := net.procs[q];
    if !l.On(q) then
      p == Proc(l.SecretAt(q), UNSET, 0, [], 0) && net.down[q] == net.up[q] == 0
    else
      && p.handled <= 1
      && (p.handled == 0 ==> p.program == [] && p.pc == 0 && p.regs == RegsFor(l.pathA, l.pathB, q))
      && (p.handled == 1 ==>
            && Formed(q == [], l.KidsOf(q), l.M(q), p.program) && p.pc <= |p.program|
            && p.regs == if p.pc == |p.program| then UNSET else RegsFor(l.pathA, l.pathB, q))
      && (q != l.pathA && q != l.pathB ==> p.secret == l.SecretAt(q))
      && (q == [] ==> p.handled == 1 && net.down[q] == net.up[q] == 0)
  }

  /** The service has got beyond position i of its program. */
  predicate Passed(p: Proc, i: nat) {
    p.handled >= 1 && p.pc > i
  }

  function One(b: bool): nat {
    if b then 1 else 0
  }

  function Parent(u: Path): Path
    requires u != []
  {
    u[..|u| - 1]
  }

  /** Which of its parent's kids the service at u is. */
  function Slot(l: Plan, u: Path): nat
    requires u != []
  {
    var kids := l.KidsOf(Parent(u));
    if kids != [] && kids[0] == u[|u| - 1] then 0 else 1
  }

  /** The pipes between u and its parent: one message down, one reply up. */
  ghost predicate EdgeInv(l: Plan, net: Net, u: Path)
    requires u != []
  {
    var r := Parent(u);
    && r in net.procs && u in net.procs && u in net.down && u in net.up
    && net.down[u] + net.procs[u].handled == One(Passed(net.procs[r], Slot(l, u)))
    && net.up[u] + One(Passed(net.procs[r], l.N(r) + l.M(r) + Slot(l, u)))
       == One(Passed(net.procs[u], 2 * l.N(u) + l.M(u)))
  }

  /** How many operations of exchanges() the service at q has done. */
  function TurnsDone(l: Plan, p: Proc, q: Path): nat {
    if p.handled == 0 || p.pc <= l.N(q) then 0
    else if p.pc - l.N(q) >= l.M(q) then l.M(q)
    else p.pc - l.N(q)
  }

  ghost predicate MeetInv(l: Plan, net: Net)
    requires l.pathA in net.procs && l.pathB in net.procs && IsPath(l.c.t, l.pathA) && IsPath(l.c.t, l.pathB)
  {
    && net.fifos.turnsA == TurnsDone(l, net.procs[l.pathA], l.pathA)
    && net.fifos.turnsB == TurnsDone(l, net.procs[l.pathB], l.pathB)
    && Meeting(net.fifos, l.c.a, l.SecretAt(l.pathA), net.procs[l.pathA].secret,
               l.c.b, l.SecretAt(l.pathB), net.procs[l.pathB].secret)
  }

  ghost predicate Inv(l: Plan, net: Net) {
    && l.Ok() && Domains(l, net)
    && (forall q :: q in net.procs ==> NodeInv(l, net, q))
    && (forall q :: q in net.procs && l.On(q) && q != [] ==> EdgeInv(l, net, q))
    && MeetInv(l, net)
  }

  // ---------------------------------------------------------------------------------------------
  // Every step keeps it

  lemma AppendInjective(p: Path, k: nat, q: Path, i: nat)
    ensures p + [k] == q + [i] <==> p == q && k == i
  {
    if p + [k] == q + [i] {
      assert (p + [k])[..|p|] == p && (q + [i])[..|q|] == q && (p + [k])[|p|] == k && (q + [i])[|q|] == i;
    }
  }

  lemma {:induction false} PathExtends(t: Service, q: Path, k: nat)
    requires IsPath(t, q)
    ensures IsPath(t, q + [k]) <==> k < |At(t, q).children|
    decreases |q|
  {
    if q == [] {
      assert [k][1..] == [];
    } else {
      assert (q + [k])[1..] == q[1..] + [k];
      PathExtends(t.children[q[0]], q[1..], k);
    }
  }

  lemma {:induction false} PrefixIsPath(t: Service, q: Path, p: Path)
    requires IsPath(t, p) && q <= p
    ensures IsPath(t, q)
    decreases |q|
  {
    if q != [] {
      assert q[1..] <= p[1..];
      PrefixIsPath(t.children[q[0]], q[1..], p[1..]);
    }
  }

  /** A kid of a service on the route is a service on the route. */
  lemma KidIsOnRoute(l: Plan, r: Path, j: nat)
    requires l.Ok() && j < l.N(r)
    ensures var u := r + [l.KidsOf(r)[j]]; l.On(r) && l.On(u) && IsPath(l.c.t, r) && IsPath(l.c.t, u) && u != []
  {
    assert l.kids(r) == Kids(l.pathA, l.pathB, r);
    var k := l.KidsOf(r)[j];
    var p := if r < l.pathA && l.pathA[|r|] == k then l.pathA else l.pathB;
    assert r + [k] == p[..|r| + 1] && r == p[..|r|];
    PrefixIsPath(l.c.t, r + [k], p);
    PrefixIsPath(l.c.t, r, p);
  }

  /** What the service at q is about to do, by its position in its program. */
  datatype Doing = Waiting | Sending(j: nat) | AtFifos | Collecting(j: nat) | Replying | Resetting

  function DoingOf(l: Plan, p: Proc, q: Path): Doing {
    var n, m := l.N(q), l.M(q);
    if p.pc >= |p.program| then Waiting
    else if p.pc < n then Sending(p.pc)
    else if p.pc < n + m then AtFifos
    else if p.pc < n + m + n then Collecting(p.pc - n - m)
    else if q != [] && p.pc == n + m + n then Replying
    else Resetting
  }

  lemma DoingIsRight(l: Plan, p: Proc, q: Path)
    requires l.Ok() && Formed(q == [], l.KidsOf(q), l.M(q), p.program) && p.pc <= |p.program|
    ensures match DoingOf(l, p, q)
            case Waiting => p.pc == |p.program|
            case Sending(j) => p.program[p.pc] == Send(l.KidsOf(q)[j])
            case AtFifos => p.program[p.pc] == Turn && (q == l.pathA || q == l.pathB)
            case Collecting(j) => p.program[p.pc] == Recv(l.KidsOf(q)[j])
            case Replying => p.program[p.pc] == Reply && p.pc == 2 * l.N(q) + l.M(q)
            case Resetting => p.program[p.pc] == Reset && p.pc == |p.program| - 1 && p.pc >= 2 * l.N(q) + l.M(q)
  {
    assert l.turns(q) == NumTurns(l.pathA, l.pathB, q);
  }

  /** At most two different kids. */
  predicate Neat(kids: seq<nat>) {
    |kids| <= 2 && (|kids| == 2 ==> kids[0] != kids[1])
  }

  lemma SlotOfKid(l: Plan, r: Path, j: nat)
    requires Neat(l.KidsOf(r)) && j < l.N(r)
    ensures var u := r + [l.KidsOf(r)[j]]; u != [] && Parent(u) == r && Slot(l, u) == j
  {
  }

  /** Every service on the route except the root is a kid of its parent. */
  lemma SlotIsKid(l: Plan, u: Path)
    requires l.Ok() && l.On(u) && u != []
    ensures var r, j := Parent(u), Slot(l, u);
            Neat(l.KidsOf(r)) && j < l.N(r) && u == r + [l.KidsOf(r)[j]] && l.On(r)
  {
    var r := Parent(u);
    assert l.kids(r) == Kids(l.pathA, l.pathB, r);
    assert u == r + [u[|u| - 1]];
    if u <= l.pathA {
      assert r < l.pathA && l.pathA[|r|] == u[|u| - 1];
    } else {
      assert r < l.pathB && l.pathB[|r|] == u[|u| - 1];
    }
  }

  /** One step, spelled out for each thing a service can be doing. */
  ghost predicate Effect(l: Plan, net: Net, q: Path, net': Net)
    requires q in net.procs && q in net.down && q in net.up
  {
    var p := net.procs[q];
    if p.handled == 0 then
      && q != [] && net.down[q] > 0 && q in net'.procs
      && net'.procs == net.procs[q := net'.procs[q]]
      && net'.procs[q] == Proc(p.secret, p.regs, 1, net'.procs[q].program, 0)
      && Formed(q == [], l.KidsOf(q), l.M(q), net'.procs[q].program)
      && net'.down == net.down[q := net.down[q] - 1] && net'.up == net.up && net'.fifos == net.fifos
    else
      Advances(l, net, q, net')
  }

  ghost predicate Advances(l: Plan, net: Net, q: Path, net': Net)
    requires q in net.procs && q in net.up
  {
    var p := net.procs[q];
    var p' := p.(pc := p.pc + 1);
    match DoingOf(l, p, q)
    case Waiting => false
    case Sending(j) =>
      var u := q + [l.KidsOf(q)[j]];
      u in net.down && net' == net.(procs := net.procs[q := p'], down := net.down[u := net.down[u] + 1])
    case AtFifos =>
      && (q == l.pathA || q == l.pathB)
      && (if q == l.pathA then CanTurnA(net.fifos) else CanTurnB(net.fifos))
      && var (f, secret) := if q == l.pathA then TurnA(net.fifos, l.c.a, p.secret)
                            else TurnB(net.fifos, l.c.b, p.secret);
         net' == net.(procs := net.procs[q := p'.(secret := secret)], fifos := f)
    case Collecting(j) =>
      var u := q + [l.KidsOf(q)[j]];
      u in net.up && net.up[u] > 0 && net' == net.(procs := net.procs[q := p'], up := net.up[u := net.up[u] - 1])
    case Replying =>
      p.pc == 2 * l.N(q) + l.M(q) && net' == net.(procs := net.procs[q := p'], up := net.up[q := net.up[q] + 1])
    case Resetting =>
      && p.pc == |p.program| - 1 && p.pc >= 2 * l.N(q) + l.M(q)
      && net' == net.(procs := net.procs[q := p'.(regs := UNSET)])
  }

  /** Only a service that has not yet had the message can be reading one. */
  lemma ReaderIsNew(l: Plan, net: Net, q: Path)
    requires q in net.procs && q in net.down && q in net.up && IsPath(l.c.t, q)
    requires NodeInv(l, net, q) && (l.On(q) && q != [] ==> EdgeInv(l, net, q)) && net.down[q] > 0
    ensures l.On(q) && q != [] && net.procs[q].handled == 0
  {
  }

  lemma StartHasEffect(l: Plan, net: Net, q: Path)
    requires l.Ok() && Enabled(l.c, net, q) && l.On(q) && q != [] && net.procs[q].handled == 0
    requires NodeInv(l, net, q)
    ensures Effect(l, net, q, Step(l.c, net, q))
  {
    ProgramForm(l.c, l.pathA, l.pathB, q);
  }

  lemma AdvanceHasEffect(l: Plan, net: Net, q: Path)
    requires l.Ok() && Enabled(l.c, net, q) && net.procs[q].pc < |net.procs[q].program|
    requires Formed(q == [], l.KidsOf(q), l.M(q), net.procs[q].program)
    ensures Advances(l, net, q, Step(l.c, net, q))
  {
    DoingIsRight(l, net.procs[q], q);
  }

  lemma StepHasEffect(l: Plan, net: Net, q: Path)
    requires l.Ok() && Enabled(l.c, net, q)
    requires NodeInv(l, net, q) && (l.On(q) && q != [] ==> EdgeInv(l, net, q))
    ensures l.On(q) && net.procs[q].handled <= 1 && Effect(l, net, q, Step(l.c, net, q))
  {
    var p := net.procs[q];
    if p.pc >= |p.program| {
      ReaderIsNew(l, net, q);
      StartHasEffect(l, net, q);
    } else {
      AdvanceHasEffect(l, net, q);
    }
  }

  // What a step at q does to the service at u and its two pipes.

  predicate Starts(p: Proc) {
    p.handled == 0
  }

  predicate SendsTo(l: Plan, p: Proc, q: Path, u: Path) {
    !Starts(p) && var d := DoingOf(l, p, q); d.Sending? && u == q + [l.KidsOf(q)[d.j]]
  }

  predicate CollectsFrom(l: Plan, p: Proc, q: Path, u: Path) {
    !Starts(p) && var d := DoingOf(l, p, q); d.Collecting? && u == q + [l.KidsOf(q)[d.j]]
  }

  predicate Replies(l: Plan, p: Proc, q: Path) {
    !Starts(p) && DoingOf(l, p, q).Replying?
  }

  lemma EffectAt(l: Plan, net: Net, q: Path, net': Net, u: Path)
    requires q in net.procs && q in net.down && q in net.up && Effect(l, net, q, net')
    requires u in net.procs && u in net.down && u in net.up
    ensures u in net'.procs && u in net'.down && u in net'.up
    ensures u != q ==> net'.procs[u] == net.procs[u]
    ensures net'.down[u] == net.down[u] + One(SendsTo(l, net.procs[q], q, u)) - One(u == q && Starts(net.procs[q]))
    ensures net'.up[u]
            == net.up[u] + One(u == q && Replies(l, net.procs[q], q)) - One(CollectsFrom(l, net.procs[q], q, u))
  {
  }

  lemma EffectOnSelf(l: Plan, net: Net, q: Path, net': Net)
    requires q in net.procs && q in net.down && q in net.up && Effect(l, net, q, net')
    ensures q in net'.procs
    ensures var p, p' := net.procs[q], net'.procs[q];
            if Starts(p) then
              && p' == Proc(p.secret, p.regs, 1, p'.program, 0) && Formed(q == [], l.KidsOf(q), l.M(q), p'.program)
            else
              && p'.pc == p.pc + 1 && p'.program == p.program && p'.handled == p.handled && p.pc < |p.program|
              && p'.regs == (if DoingOf(l, p, q).Resetting? then UNSET else p.regs)
              && (!DoingOf(l, p, q).AtFifos? ==> p'.secret == p.secret)
              && (DoingOf(l, p, q).AtFifos? ==> q == l.pathA || q == l.pathB)
              && (DoingOf(l, p, q).Resetting? ==> p.pc == |p.program| - 1)
              && (DoingOf(l, p, q).Replying? ==> p.pc == 2 * l.N(q) + l.M(q))
  {
  }

  /** A step at q leaves every service the way the invariant wants it. */
  lemma NodeStep(l: Plan, net: Net, q: Path, net': Net, u: Path)
    requires l.Ok() && l.On(q) && IsPath(l.c.t, u) && IsPath(l.c.t, q)
    requires q in net.procs && q in net.down && q in net.up && u in net.procs && u in net.down && u in net.up
    requires NodeInv(l, net, q) && NodeInv(l, net, u) && Effect(l, net, q, net')
    ensures u in net'.procs && u in net'.down && u in net'.up && NodeInv(l, net', u)
  {
    EffectAt(l, net, q, net', u);
    EffectOnSelf(l, net, q, net');
    var d := DoingOf(l, net.procs[q], q);
    if d.Sending? {
      KidIsOnRoute(l, q, d.j);
    } else if d.Collecting? {
      KidIsOnRoute(l, q, d.j);
    }
  }

  /** The parts of NodeInv that matter for the pipes. */
  ghost predicate Busy(l: Plan, p: Proc, q: Path) {
    && p.handled <= 1
    && (p.handled == 1 ==> Formed(q == [], l.KidsOf(q), l.M(q), p.program) && p.pc <= |p.program|)
  }

  lemma EdgeStepByChild(l: Plan, net: Net, net': Net, u: Path)
    requires u != [] && u in net.procs && u in net.down && u in net.up && Parent(u) in net.down && Parent(u) in net.up
    requires Busy(l, net.procs[u], u) && EdgeInv(l, net, u) && Effect(l, net, u, net')
    ensures EdgeInv(l, net', u)
  {
    EffectAt(l, net, u, net', u);
    EffectAt(l, net, u, net', Parent(u));
    EffectOnSelf(l, net, u, net');
  }

  /** The parent sends to u exactly at position Slot(u) and collects from it at the matching later position. */
  lemma SlotPositions(l: Plan, p: Proc, u: Path)
    requires u != [] && Neat(l.KidsOf(Parent(u)))
    requires Slot(l, u) < l.N(Parent(u)) && u == Parent(u) + [l.KidsOf(Parent(u))[Slot(l, u)]]
    requires Busy(l, p, Parent(u))
    ensures SendsTo(l, p, Parent(u), u) <==> p.handled == 1 && p.pc == Slot(l, u)
    ensures CollectsFrom(l, p, Parent(u), u) <==> p.handled == 1 && p.pc == l.N(Parent(u)) + l.M(Parent(u)) + Slot(l, u)
  {
    var q := Parent(u);
    var d := DoingOf(l, p, q);
    if d.Sending? {
      AppendInjective(q, l.KidsOf(q)[d.j], q, l.KidsOf(q)[Slot(l, u)]);
    } else if d.Collecting? {
      AppendInjective(q, l.KidsOf(q)[d.j], q, l.KidsOf(q)[Slot(l, u)]);
    }
  }

  lemma EdgeStepByParent(l: Plan, net: Net, net': Net, u: Path)
    requires u != [] && u in net.procs && u in net.down && u in net.up
    requires var q := Parent(u); q in net.procs && q in net.down && q in net.up && Busy(l, net.procs[q], q)
    requires Neat(l.KidsOf(Parent(u))) && Slot(l, u) < l.N(Parent(u))
    requires u == Parent(u) + [l.KidsOf(Parent(u))[Slot(l, u)]]
    requires EdgeInv(l, net, u) && Effect(l, net, Parent(u), net')
    ensures EdgeInv(l, net', u)
  {
    var q := Parent(u);
    assert q != u;
    SlotPositions(l, net.procs[q], u);
    EffectAt(l, net, q, net', u);
    EffectOnSelf(l, net, q, net');
  }

  lemma EdgeStepElsewhere(l: Plan, net: Net, q: Path, net': Net, u: Path)
    requires u != [] && q != u && q != Parent(u)
    requires u in net.procs && u in net.down && u in net.up && Parent(u) in net.down && Parent(u) in net.up
    requires q in net.procs && q in net.down && q in net.up && Neat(l.KidsOf(q))
    requires EdgeInv(l, net, u) && Effect(l, net, q, net')
    ensures EdgeInv(l, net', u)
  {
    EffectAt(l, net, q, net', u);
    EffectAt(l, net, q, net', Parent(u));
    var d := DoingOf(l, net.procs[q], q);
    if d.Sending? {
      SlotOfKid(l, q, d.j);
    } else if d.Collecting? {
      SlotOfKid(l, q, d.j);
    }
  }

  /** A step at q keeps the pipes of every service on the route consistent with the services at their ends. */
  lemma EdgeStep(l: Plan, net: Net, q: Path, net': Net, u: Path)
    requires l.Ok() && l.On(q) && l.On(u) && u != []
    requires q in net.procs && q in net.down && q in net.up
    requires u in net.procs && u in net.down && u in net.up && Parent(u) in net.down && Parent(u) in net.up
    requires Busy(l, net.procs[q], q) && EdgeInv(l, net, u) && Effect(l, net, q, net')
    ensures EdgeInv(l, net', u)
  {
    SlotIsKid(l, u);
    NeatKids(l, q);
    if q == u {
      EdgeStepByChild(l, net, net', u);
    } else if q == Parent(u) {
      EdgeStepByParent(l, net, net', u);
    } else {
      EdgeStepElsewhere(l, net, q, net', u);
    }
  }

  lemma NeatKids(l: Plan, q: Path)
    requires l.Ok()
    ensures Neat(l.KidsOf(q))
  {
    assert l.kids(q) == Kids(l.pathA, l.pathB, q);
  }

  lemma TurnsOfBoth(l: Plan)
    requires l.Ok()
    ensures l.M(l.pathA) == TURNS_A && l.M(l.pathB) == TURNS_B
  {
    assert l.turns(l.pathA) == NumTurns(l.pathA, l.pathB, l.pathA);
    assert l.turns(l.pathB) == NumTurns(l.pathA, l.pathB, l.pathB);
  }

  /** Outside exchanges() nothing touches the FIFOs, and no step before or after counts as a turn. */
  lemma MeetStepElsewhere(l: Plan, net: Net, q: Path, net': Net, u: Path)
    requires q in net.procs && q in net.down && q in net.up && u in net.procs && u in net.down && u in net.up
    requires Busy(l, net.procs[q], q) && Effect(l, net, q, net')
    requires u == q ==> Starts(net.procs[q]) || !DoingOf(l, net.procs[q], q).AtFifos?
    ensures u in net'.procs && net'.procs[u].secret == net.procs[u].secret
    ensures TurnsDone(l, net'.procs[u], u) == TurnsDone(l, net.procs[u], u)
  {
    EffectAt(l, net, q, net', u);
    EffectOnSelf(l, net, q, net');
  }

  /** A turn at the FIFOs moves the turn count of the service by one. */
  lemma TurnCounts(l: Plan, net: Net, q: Path, net': Net)
    requires q in net.procs && q in net.down && q in net.up
    requires Busy(l, net.procs[q], q) && Effect(l, net, q, net')
    requires !Starts(net.procs[q]) && DoingOf(l, net.procs[q], q).AtFifos?
    ensures q in net'.procs && TurnsDone(l, net.procs[q], q) < l.M(q)
    ensures TurnsDone(l, net'.procs[q], q) == TurnsDone(l, net.procs[q], q) + 1
  {
  }

  lemma MeetStepA(l: Plan, net: Net, net': Net)
    requires l.Ok() && l.pathA in net.procs && l.pathA in net.down && l.pathA in net.up
    requires l.pathB in net.procs && l.pathB in net.down && l.pathB in net.up
    requires Busy(l, net.procs[l.pathA], l.pathA) && MeetInv(l, net) && Effect(l, net, l.pathA, net')
    requires !Starts(net.procs[l.pathA]) && DoingOf(l, net.procs[l.pathA], l.pathA).AtFifos?
    ensures l.pathA in net'.procs && l.pathB in net'.procs && MeetInv(l, net')
  {
    TurnsOfBoth(l);
    TurnCounts(l, net, l.pathA, net');
    MeetStepElsewhere(l, net, l.pathA, net', l.pathB);
    TurnAKeepsMeeting(net.fifos, l.c.a, l.SecretAt(l.pathA), net.procs[l.pathA].secret,
                      l.c.b, l.SecretAt(l.pathB), net.procs[l.pathB].secret);
  }

  lemma MeetStepB(l: Plan, net: Net, net': Net)
    requires l.Ok() && l.pathA in net.procs && l.pathA in net.down && l.pathA in net.up
    requires l.pathB in net.procs && l.pathB in net.down && l.pathB in net.up
    requires Busy(l, net.procs[l.pathB], l.pathB) && MeetInv(l, net) && Effect(l, net, l.pathB, net')
    requires !Starts(net.procs[l.pathB]) && DoingOf(l, net.procs[l.pathB], l.pathB).AtFifos?
    ensures l.pathA in net'.procs && l.pathB in net'.procs && MeetInv(l, net')
  {
    TurnsOfBoth(l);
    TurnCounts(l, net, l.pathB, net');
    MeetStepElsewhere(l, net, l.pathB, net', l.pathA);
    TurnBKeepsMeeting(net.fifos, l.c.a, l.SecretAt(l.pathA), net.procs[l.pathA].secret,
                      l.c.b, l.SecretAt(l.pathB), net.procs[l.pathB].secret);
  }

  lemma MeetStep(l: Plan, net: Net, q: Path, net': Net)
    requires l.Ok() && q in net.procs && q in net.down && q in net.up
    requires l.pathA in net.procs && l.pathA in net.down && l.pathA in net.up
    requires l.pathB in net.procs && l.pathB in net.down && l.pathB in net.up
    requires Busy(l, net.procs[q], q) && MeetInv(l, net) && Effect(l, net, q, net')
    ensures l.pathA in net'.procs && l.pathB in net'.procs && MeetInv(l, net')
  {
    if Starts(net.procs[q]) || !DoingOf(l, net.procs[q], q).AtFifos? {
      MeetStepElsewhere(l, net, q, net', l.pathA);
      MeetStepElsewhere(l, net, q, net', l.pathB);
      assert net'.fifos == net.fifos;
    } else if q == l.pathA {
      MeetStepA(l, net, net');
    } else {
      MeetStepB(l, net, net');
    }
  }
}
