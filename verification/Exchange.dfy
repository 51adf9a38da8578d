/**
 The concurrent part of the exchange command of HW2: the `start_exchange` message.

 After the find passes every service holds its routing registers. The manager starts the message on
 its way, and from then on the services run concurrently: each forwards the message according to its
 registers, the two named services meet at their FIFOs, and replies travel back. A service is
 identified by its path in the tree, a pipe by the path of the child it belongs to.
 */
module Exchange {
  import opened ServiceTree
  import opened Rendezvous

  // ---------------------------------------------------------------------------------------------
  // The protocol

  datatype Action =
    | Send(k: int)   // write start_exchange to child k
    | Turn           // the next operation of exchanges()
    | Recv(k: int)   // read the reply of child k
    | Reply          // write the reply to the parent
    | Reset          // registers back to -1

  /** Lines 225-253: the operations of exchanges(), for a service of the given name. */
  function Turns(name: string, a: string, b: string): seq<Action> {
    if name == a then seq(TURNS_A, i => Turn) else if name == b then seq(TURNS_B, i => Turn) else []
  }

  /** Lines 415-454: what the manager does after the find passes. */
  function ManagerProgram(name: string, regs: Regs, a: string, b: string): seq<Action> {
    if name == a then
      [Send(regs.write1)] + Turns(name, a, b) + [Recv(regs.read1), Reset]
    else if name == b then
      [Send(regs.write0)] + Turns(name, a, b) + [Recv(regs.read0), Reset]
    else if regs.write0 == regs.write1 then
      [Send(regs.write0), Recv(regs.read0), Reset]
    else
      [Send(regs.write0), Send(regs.write1), Recv(regs.read0), Recv(regs.read1), Reset]
  }

  /** Lines 469-520: what any other service does with a start_exchange message. */
  function ServiceProgram(name: string, regs: Regs, a: string, b: string): seq<Action> {
    if regs.read0 == -1 && regs.read1 == -1 then
      Turns(name, a, b) + [Reply, Reset]
    else if name == a then
      [Send(regs.write1)] + Turns(name, a, b) + [Recv(regs.read1), Reply, Reset]
    else if name == b then
      [Send(regs.write0)] + Turns(name, a, b) + [Recv(regs.read0), Reply, Reset]
    else if regs.read0 != -1 && regs.read1 != -1 && regs.read0 != regs.read1 then
      [Send(regs.write0), Send(regs.write1), Recv(regs.read0), Recv(regs.read1), Reply, Reset]
    else if regs.read0 != -1 && regs.read1 != -1 && regs.read0 == regs.read1 then
      [Send(regs.write0), Recv(regs.read0), Reply, Reset]
    else if regs.read0 != -1 then
      [Send(regs.write0), Recv(regs.read0), Reply, Reset]
    else
      [Send(regs.write1), Recv(regs.read1), Reply, Reset]
  }

  function Program(manager: bool, name: string, regs: Regs, a: string, b: string): seq<Action> {
    if manager then ManagerProgram(name, regs, a, b) else ServiceProgram(name, regs, a, b)
  }

  /** A service process; it waits for a message when pc has reached the end of its program. */
  datatype Proc = Proc(secret: nat, regs: Regs, handled: nat, program: seq<Action>, pc: nat)

  /** All processes, the messages waiting in each pipe from and to a parent, and the FIFOs. */
  datatype Net = Net(procs: map<Path, Proc>, down: map<Path, nat>, up: map<Path, nat>, fifos: Fifos)

  /** The paths of all services of a tree. */
  function Paths(t: Service): (ps: set<Path>)
    ensures forall p :: p in ps <==> IsPath(t, p)
    decreases t
  {
    var ps := {[]} + set k, p | 0 <= k < |t.children| && p in Paths(t.children[k]) :: [k] + p;
    assert forall p :: p in ps <==> IsPath(t, p) by {
      forall p ensures p in ps <==> IsPath(t, p) {
        if p != [] && IsPath(t, p) {
          assert p == [p[0]] + p[1..];
        }
        if p in ps && p != [] {
          var k, p' :| 0 <= k < |t.children| && p' in Paths(t.children[k]) && p == [k] + p';
          assert p[1..] == p';
        }
      }
    }
    ps
  }

  /** An exchange between the services a and b of tree t. */
  datatype Setup = Setup(t: Service, a: string, b: string)

  function NameOf(c: Setup, q: Path): string
    requires IsPath(c.t, q)
  {
    At(c.t, q).name
  }

  predicate Enabled(c: Setup, net: Net, q: Path)
  {
    && IsPath(c.t, q) && q in net.procs && q in net.down && q in net.up
    && var p := net.procs[q];
       if p.pc >= |p.program| then net.down[q] > 0
       else
         match p.program[p.pc]
         case Send(k) => k >= 0 && q + [k] in net.down
         case Turn => if NameOf(c, q) == c.a then CanTurnA(net.fifos) else CanTurnB(net.fifos)
         case Recv(k) => k >= 0 && q + [k] in net.up && net.up[q + [k]] > 0
         case Reply => true
         case Reset => true
  }

  /** The next step of the service at q. */
  function Step(c: Setup, net: Net, q: Path): Net
    requires Enabled(c, net, q)
  {
    var p := net.procs[q];
    if p.pc >= |p.program| then
      var program := Program(q == [], NameOf(c, q), p.regs, c.a, c.b);
      net.(down := net.down[q := net.down[q] - 1],
           procs := net.procs[q := p.(program := program, pc := 0, handled := p.handled + 1)])
    else
      var p' := p.(pc := p.pc + 1);
      match p.program[p.pc]
      case Send(k) => net.(procs := net.procs[q := p'], down := net.down[q + [k] := net.down[q + [k]] + 1])
      case Turn =>
        var (f, secret) := if NameOf(c, q) == c.a then TurnA(net.fifos, c.a, p.secret)
                           else TurnB(net.fifos, c.b, p.secret);
        net.(procs := net.procs[q := p'.(secret := secret)], fifos := f)
      case Recv(k) => net.(procs := net.procs[q := p'], up := net.up[q + [k] := net.up[q + [k]] - 1])
      case Reply => net.(procs := net.procs[q := p'], up := net.up[q := net.up[q] + 1])
      case Reset => net.(procs := net.procs[q := p'.(regs := UNSET)])
  }

  /** The manager is about to start; all other services wait for messages and all pipes are empty. */
  function Start(c: Setup): Net {
    Net(map q | q in Paths(c.t) ::
          var u := At(c.t, q);
          if q == [] then Proc(u.secret, u.regs, 1, Program(true, u.name, u.regs, c.a, c.b), 0)
          else Proc(u.secret, u.regs, 0, [], 0),
        map q | q in Paths(c.t) :: 0,
        map q | q in Paths(c.t) :: 0,
        CLOSED)
  }

  ghost predicate IsRun(c: Setup, net: Net, run: seq<Path>, net': Net)
    decreases |run|
  {
    if run == [] then net == net'
    else Enabled(c, net, run[0]) && IsRun(c, Step(c, net, run[0]), run[1..], net')
  }

  // ---------------------------------------------------------------------------------------------
  // Routes

  /** The next step from q towards p, or -1 when q is not on the way. */
  function Toward(p: Path, q: Path): int {
    if q < p then p[|q|] else -1
  }

  /** The two different services exist once each, and every register points the way to its target. */
  ghost predicate Proper(c: Setup, pathA: Path, pathB: Path) {
    && IsPath(c.t, pathA) && IsPath(c.t, pathB) && pathA != pathB && c.a != c.b
    && (forall q {:trigger NameOf(c, q)} :: IsPath(c.t, q) ==>
          (NameOf(c, q) == c.a <==> q == pathA) && (NameOf(c, q) == c.b <==> q == pathB))
    && (forall q {:trigger RegsFor(pathA, pathB, q)} :: IsPath(c.t, q) ==> At(c.t, q).regs == RegsFor(pathA, pathB, q))
  }

  function RegsFor(pathA: Path, pathB: Path, q: Path): Regs {
    Regs(Toward(pathA, q), Toward(pathA, q), Toward(pathB, q), Toward(pathB, q))
  }

  predicate OnRoute(pathA: Path, pathB: Path, q: Path) {
    q <= pathA || q <= pathB
  }

  /** The children that the service at q forwards the message to. */
  function Kids(pathA: Path, pathB: Path, q: Path): seq<nat> {
    if q < pathA && q < pathB then
      if pathA[|q|] == pathB[|q|] then [pathA[|q|]] else [pathA[|q|], pathB[|q|]]
    else if q < pathA then [pathA[|q|]]
    else if q < pathB then [pathB[|q|]]
    else []
  }

  function NumTurns(pathA: Path, pathB: Path, q: Path): nat {
    if q == pathA then TURNS_A else if q == pathB then TURNS_B else 0
  }

  /** The form shared by all cases of the protocol: forward, meet, collect replies, reply, reset. */
  ghost predicate Formed(manager: bool, kids: seq<nat>, m: nat, prog: seq<Action>) {
    var n := |kids|;
    && |prog| == 2 * n + m + (if manager then 1 else 2)
    && (forall i :: 0 <= i < n ==> prog[i] == Send(kids[i]))
    && (forall i :: n <= i < n + m ==> prog[i] == Turn)
    && (forall i :: n + m <= i < 2 * n + m ==> prog[i] == Recv(kids[i - n - m]))
    && (!manager ==> prog[2 * n + m] == Reply)
    && prog[|prog| - 1] == Reset
  }

  lemma ProgramForm(c: Setup, pathA: Path, pathB: Path, q: Path)
    requires Proper(c, pathA, pathB) && IsPath(c.t, q) && OnRoute(pathA, pathB, q)
    ensures Formed(q == [], Kids(pathA, pathB, q), NumTurns(pathA, pathB, q),
                   Program(q == [], NameOf(c, q), RegsFor(pathA, pathB, q), c.a, c.b))
  {
    if q == [] {
      assert q <= pathA && q <= pathB;
    }
  }
}
