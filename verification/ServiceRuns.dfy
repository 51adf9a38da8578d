/**
 Whole commands and whole runs of the service tree: what the manager sees of spawn, kill and
 exchange, and the invariant that holds between commands.
 */
module ServiceRuns {
  import opened ServiceTree
  import opened ServiceCommands
  import opened Rendezvous
  import opened Exchange
  import opened ExchangeProofs
  import opened ExchangeTheorems

  // ---------------------------------------------------------------------------------------------
  // Between commands

  ghost predicate DistinctNames(t: Service) {
    forall x :: multiset(Preorder(t))[x] <= 1
  }

  /** All routing registers of all services are -1. */
  predicate Unset(t: Service) {
    t.regs == UNSET && forall i :: 0 <= i < |t.children| ==> Unset(t.children[i])
  }

  lemma {:induction false} UnsetAt(t: Service, p: Path)
    requires Unset(t) && IsPath(t, p)
    ensures Unset(At(t, p))
    decreases |p|
  {
    if p != [] {
      UnsetAt(t.children[p[0]], p[1..]);
    }
  }

  lemma {:induction false} UnsetPut(t: Service, p: Path, u: Service)
    requires Unset(t) && IsPath(t, p) && Unset(u)
    ensures Unset(Put(t, p, u))
    decreases |p|
  {
    if p != [] {
      UnsetPut(t.children[p[0]], p[1..], u);
    }
  }

  lemma {:induction false} UnsetCut(t: Service, p: Path)
    requires Unset(t) && IsPath(t, p) && p != []
    ensures Unset(Cut(t, p))
    decreases |p|
  {
    if |p| > 1 {
      UnsetCut(t.children[p[0]], p[1..]);
    }
  }

  // ---------------------------------------------------------------------------------------------
  // Distinct names identify services

  lemma {:induction false} NameInPreorder(t: Service, p: Path)
    requires IsPath(t, p)
    ensures At(t, p).name in Preorder(t)
    decreases |p|
  {
    if p != [] {
      NameInPreorder(t.children[p[0]], p[1..]);
      ForestAround(t.children, p[0]);
    }
  }

  /** How often a name occurs in the subtrees of the children before k, in child k, and behind it. */
  lemma CountAround(t: Service, k: nat, x: string)
    requires k < |t.children|
    ensures multiset(Preorder(t))[x] ==
            (if x == t.name then 1 else 0) + multiset(Forest(t.children[..k]))[x]
            + multiset(Preorder(t.children[k]))[x] + multiset(Forest(t.children[k + 1..]))[x]
  {
    ForestAround(t.children, k);
  }

  lemma DistinctInChild(t: Service, k: nat)
    requires DistinctNames(t) && k < |t.children|
    ensures DistinctNames(t.children[k])
  {
    forall x ensures multiset(Preorder(t.children[k]))[x] <= 1 {
      CountAround(t, k, x);
    }
  }

  lemma InLaterChild(ts: seq<Service>, j: nat, k: nat, x: string)
    requires j < k < |ts| && x in Preorder(ts[k])
    ensures x in Forest(ts[j + 1..])
  {
    assert ts[j + 1..][k - j - 1] == ts[k];
    ForestAround(ts[j + 1..], k - j - 1);
  }

  lemma {:induction false} NamesIdentify(t: Service, p: Path, q: Path)
    requires DistinctNames(t) && IsPath(t, p) && IsPath(t, q) && At(t, p).name == At(t, q).name
    ensures p == q
    decreases |p|
  {
    var x := At(t, p).name;
    if p != [] && q != [] && p[0] == q[0] {
      DistinctInChild(t, p[0]);
      NamesIdentify(t.children[p[0]], p[1..], q[1..]);
      assert p == [p[0]] + p[1..] && q == [q[0]] + q[1..];
    } else if p != [] || q != [] {
      var k := if p == [] then q[0] else if q == [] then p[0] else if p[0] < q[0] then p[0] else q[0];
      CountAround(t, k, x);
      if p != [] { NameInPreorder(t.children[p[0]], p[1..]); }
      if q != [] { NameInPreorder(t.children[q[0]], q[1..]); }
      if p != [] && q != [] {
        InLaterChild(t.children, k, if p[0] < q[0] then q[0] else p[0], x);
      }
    }
  }

  // ---------------------------------------------------------------------------------------------
  // The registers after the find passes

  /** Marking a route changes nothing but registers, and exactly those of the proper ancestors of its end. */
  lemma {:induction false} MarkedAt(t: Service, p: Path, index: nat, q: Path)
    requires IsPath(t, p)
    ensures IsPath(Marked(t, p, index), q) <==> IsPath(t, q)
    ensures IsPath(t, q) ==>
              var u, u' := At(t, q), At(Marked(t, p, index), q);
              && u'.name == u.name && u'.secret == u.secret && |u'.children| == |u.children|
              && u'.regs == if q < p then Routed(u.regs, index, p[|q|]) else u.regs
    decreases |q|
  {
    if q != [] && p != [] && q[0] == p[0] {
      MarkedAt(t.children[p[0]], p[1..], index, q[1..]);
      assert q < p <==> q[1..] < p[1..];
    } else if q != [] && p != [] && q[0] < |t.children| {
      assert Marked(t, p, index).children[q[0]] == t.children[q[0]];
    }
  }

  lemma {:induction false} MarkedKeepsPreorder(t: Service, p: Path, index: nat)
    requires IsPath(t, p)
    ensures Preorder(Marked(t, p, index)) == Preorder(t)
    decreases |p|
  {
    if p != [] {
      var k := p[0];
      var cs := Marked(t, p, index).children;
      MarkedKeepsPreorder(t.children[k], p[1..], index);
      ForestAround(cs, k);
      ForestAround(t.children, k);
      assert cs[..k] == t.children[..k] && cs[k + 1..] == t.children[k + 1..];
    }
  }

  /** The tree after both find passes. */
  function Prepared(t: Service, a: string, b: string): Service
    requires a in Preorder(t) && b in Preorder(t)
  {
    var t' := Marked(t, Locate(t, a), 0);
    MarkedKeepsPreorder(t, Locate(t, a), 0);
    Marked(t', Locate(t', b), 1)
  }

  lemma LocateAfterMark(t: Service, p: Path, index: nat, x: string)
    requires DistinctNames(t) && IsPath(t, p) && x in Preorder(t)
    ensures x in Preorder(Marked(t, p, index)) && Locate(Marked(t, p, index), x) == Locate(t, x)
  {
    MarkedKeepsPreorder(t, p, index);
    var q := Locate(Marked(t, p, index), x);
    MarkedAt(t, p, index, q);
    NamesIdentify(t, q, Locate(t, x));
  }

  /**
   After the find passes a register is set exactly at the proper ancestors of its target, and names
   the child that leads there.
   */
  lemma RegistersAfterFinds(t: Service, a: string, b: string, q: Path)
    requires DistinctNames(t) && Unset(t) && a in Preorder(t) && b in Preorder(t)
    ensures IsPath(Prepared(t, a, b), q) <==> IsPath(t, q)
    ensures IsPath(t, q) ==>
              var u, u' := At(t, q), At(Prepared(t, a, b), q);
              && u'.name == u.name && u'.secret == u.secret && |u'.children| == |u.children|
              && u'.regs == RegsFor(Locate(t, a), Locate(t, b), q)
  {
    var t' := Marked(t, Locate(t, a), 0);
    LocateAfterMark(t, Locate(t, a), 0, b);
    MarkedAt(t, Locate(t, a), 0, Locate(t, b));
    MarkedAt(t, Locate(t, a), 0, q);
    MarkedAt(t', Locate(t, b), 1, q);
    if IsPath(t, q) {
      UnsetAt(t, q);
    }
  }

  lemma FindsPrepare(t: Service, a: string, b: string)
    requires DistinctNames(t) && Unset(t) && a in Preorder(t) && b in Preorder(t) && a != b
    ensures Proper(Setup(Prepared(t, a, b), a, b), Locate(t, a), Locate(t, b))
  {
    var c := Setup(Prepared(t, a, b), a, b);
    var pathA, pathB := Locate(t, a), Locate(t, b);
    forall q ensures IsPath(c.t, q) ==>
        && (NameOf(c, q) == a <==> q == pathA) && (NameOf(c, q) == b <==> q == pathB)
        && At(c.t, q).regs == RegsFor(pathA, pathB, q)
    {
      RegistersAfterFinds(t, a, b, q);
      if IsPath(t, q) && At(t, q).name == a { NamesIdentify(t, q, pathA); }
      if IsPath(t, q) && At(t, q).name == b { NamesIdentify(t, q, pathB); }
    }
    RegistersAfterFinds(t, a, b, pathA);
    RegistersAfterFinds(t, a, b, pathB);
  }

  // ---------------------------------------------------------------------------------------------
  // The exchange command

  /** The tree with new secrets for the services called a and b. */
  function WithSecrets(t: Service, a: string, va: nat, b: string, vb: nat): Service
    decreases t
  {
    t.(secret := if t.name == a then va else if t.name == b then vb else t.secret,
       children := seq(|t.children|, i requires 0 <= i < |t.children| => WithSecrets(t.children[i], a, va, b, vb)))
  }

  /** The two named services have each other's secret. */
  function Exchanged(t: Service, a: string, b: string): Service
    requires a in Preorder(t) && b in Preorder(t)
  {
    WithSecrets(t, a, At(t, Locate(t, b)).secret, b, At(t, Locate(t, a)).secret)
  }

  /**
   The tree t, which lies at path q of a bigger tree, with the secrets of its processes and the
   registers with which they will read their next message.
   */
  function Collected(t: Service, procs: map<Path, Proc>, q: Path): Service
    decreases t
  {
    Service(t.name,
            if q in procs then procs[q].secret else t.secret,
            if q in procs then NextRegs(procs[q]) else t.regs,
            seq(|t.children|, i requires 0 <= i < |t.children| => Collected(t.children[i], procs, q + [i])))
  }

  lemma {:induction false} ChildAt(t: Service, q: Path, i: nat)
    requires IsPath(t, q) && i < |At(t, q).children|
    ensures IsPath(t, q + [i]) && At(t, q + [i]) == At(t, q).children[i]
    decreases |q|
  {
    if q == [] {
      assert [i][1..] == [];
    } else {
      assert (q + [i])[1..] == q[1..] + [i];
      ChildAt(t.children[q[0]], q[1..], i);
    }
  }

  /** What an exchange leaves at path q. */
  lemma NodeAfterExchange(t: Service, a: string, b: string, net: Net, q: Path)
    requires DistinctNames(t) && Unset(t) && a in Preorder(t) && b in Preorder(t) && a != b && IsPath(t, q)
    requires IsPath(Prepared(t, a, b), Locate(t, a)) && IsPath(Prepared(t, a, b), Locate(t, b))
    requires Settled(Setup(Prepared(t, a, b), a, b), Locate(t, a), Locate(t, b), net)
    ensures IsPath(Prepared(t, a, b), q) && q in net.procs && NextRegs(net.procs[q]) == At(t, q).regs
    ensures At(Prepared(t, a, b), q).name == At(t, q).name && |At(Prepared(t, a, b), q).children| == |At(t, q).children|
    ensures net.procs[q].secret ==
            if At(t, q).name == a then At(t, Locate(t, b)).secret
            else if At(t, q).name == b then At(t, Locate(t, a)).secret
            else At(t, q).secret
  {
    RegistersAfterFinds(t, a, b, q);
    RegistersAfterFinds(t, a, b, Locate(t, a));
    RegistersAfterFinds(t, a, b, Locate(t, b));
    UnsetAt(t, q);
    if At(t, q).name == a { NamesIdentify(t, q, Locate(t, a)); }
    if At(t, q).name == b { NamesIdentify(t, q, Locate(t, b)); }
  }

  /** At path q, tree t1 has the shape of t, and its process has the registers of t and the secret it should have. */
  predicate AgreesAt(t: Service, t1: Service, procs: map<Path, Proc>, a: string, va: nat, b: string, vb: nat, q: Path) {
    IsPath(t, q) ==>
      && IsPath(t1, q) && q in procs
      && var u, u1 := At(t, q), At(t1, q);
         && u1.name == u.name && |u1.children| == |u.children| && NextRegs(procs[q]) == u.regs
         && procs[q].secret == if u.name == a then va else if u.name == b then vb else u.secret
  }

  /** If that is so everywhere, the processes make up the specified tree, here from path q downwards. */
  lemma {:induction false} CollectedBelow(
    t: Service, t1: Service, procs: map<Path, Proc>, a: string, va: nat, b: string, vb: nat, q: Path, u: Service)
    requires forall r :: AgreesAt(t, t1, procs, a, va, b, vb, r)
    requires IsPath(t, q) && IsPath(t1, q) && u == At(t, q)
    ensures Collected(At(t1, q), procs, q) == WithSecrets(u, a, va, b, vb)
    decreases u
  {
    assert AgreesAt(t, t1, procs, a, va, b, vb, q);
    var u1 := At(t1, q);
    forall i | 0 <= i < |u.children|
      ensures Collected(u1.children[i], procs, q + [i]) == WithSecrets(u.children[i], a, va, b, vb)
    {
      ChildAt(t, q, i);
      ChildAt(t1, q, i);
      CollectedBelow(t, t1, procs, a, va, b, vb, q + [i], u.children[i]);
    }
    assert Collected(u1, procs, q).children == WithSecrets(u, a, va, b, vb).children;
  }

  /** An exchange leaves the tree of the specification behind. */
  lemma CollectedIsExchanged(t: Service, a: string, b: string, net: Net)
    requires DistinctNames(t) && Unset(t) && a in Preorder(t) && b in Preorder(t) && a != b
    requires IsPath(Prepared(t, a, b), Locate(t, a)) && IsPath(Prepared(t, a, b), Locate(t, b))
    requires Settled(Setup(Prepared(t, a, b), a, b), Locate(t, a), Locate(t, b), net)
    ensures Collected(Prepared(t, a, b), net.procs, []) == Exchanged(t, a, b)
  {
    var t1, va, vb := Prepared(t, a, b), At(t, Locate(t, b)).secret, At(t, Locate(t, a)).secret;
    forall q ensures AgreesAt(t, t1, net.procs, a, va, b, vb, q) {
      if IsPath(t, q) {
        NodeAfterExchange(t, a, b, net, q);
      }
    }
    CollectedBelow(t, t1, net.procs, a, va, b, vb, [], t);
  }

  /**
   For every tree with distinct names and every two different services in it: whatever the
   interleaving after the find passes, when the manager is about to print that the secrets have been
   exchanged the processes make up the tree with exactly the two secrets swapped, the two reports
   have come in order, and all pipes are empty. An interleaving at rest has come past that point
   (RestMeansReturn).
   */
  lemma EveryInterleavingExchanges(t: Service, a: string, b: string, run: seq<Path>, net: Net)
    requires DistinctNames(t) && Unset(t) && a in Preorder(t) && b in Preorder(t) && a != b
    requires var c := Setup(Prepared(t, a, b), a, b); IsRun(c, Start(c), run, net) && ManagerReturns(net)
    ensures Collected(Prepared(t, a, b), net.procs, []) == Exchanged(t, a, b)
    ensures net.fifos.reports == [Report(a, At(t, Locate(t, b)).secret), Report(b, At(t, Locate(t, a)).secret)]
    ensures forall q :: q in net.down ==> net.down[q] == 0
    ensures forall q :: q in net.up ==> net.up[q] == 0
    ensures forall q :: q in net.procs ==> OnlyResets(net.procs[q])
  {
    FindsPrepare(t, a, b);
    ManagerReturnsAfterSwap(Setup(Prepared(t, a, b), a, b), Locate(t, a), Locate(t, b), run, net);
    RegistersAfterFinds(t, a, b, Locate(t, a));
    RegistersAfterFinds(t, a, b, Locate(t, b));
    CollectedIsExchanged(t, a, b, net);
  }

  /**
   On every such tree: in some interleaving a service still has its registers set when the manager
   prints, if and only if a or b is more than one level below the manager.
   */
  lemma LateResetIffDeepInTree(t: Service, a: string, b: string)
    requires DistinctNames(t) && Unset(t) && a in Preorder(t) && b in Preorder(t) && a != b
    ensures (exists run, net, q :: LateReset(Setup(Prepared(t, a, b), a, b), run, net, q))
            <==> |Locate(t, a)| > 1 || |Locate(t, b)| > 1
  {
    FindsPrepare(t, a, b);
    LateResetIffDeep(Setup(Prepared(t, a, b), a, b), Locate(t, a), Locate(t, b));
  }

  /** The services that the traversal reaches: up to the later of a and b. */
  function UpToBoth(names: seq<string>, a: string, b: string): seq<string> {
    if |UpTo(names, a)| >= |UpTo(names, b)| then UpTo(names, a) else UpTo(names, b)
  }

  /**
   The manager's side of `exchange a b`: count, find both routes, start the exchange, and return
   when its replies are in.
   */
  method ExchangeCommand(t: Service, a: string, b: string)
    returns (t': Service, received: seq<string>, reports: seq<Report>)
    requires DistinctNames(t) && Unset(t) && a in Preorder(t) && b in Preorder(t) && a != b
    ensures t' == Exchanged(t, a, b)
    ensures received == UpToBoth(Preorder(t), a, b)
    ensures reports == [Report(a, At(t, Locate(t, b)).secret), Report(b, At(t, Locate(t, a)).secret)]
  {
    var walk := Traverse(t, a, b, 0);
    received := walk.received;
    DistinctByIndex(Preorder(t));
    WalkEndsAtSecond(Preorder(t), a, b);
    MarkedKeepsPreorder(t, Locate(t, a), 0);
    var t1, found := t, false;
    if t.name != a {
      t1, found := Finds(t1, a, 0);
    }
    if t.name != b {
      t1, found := Finds(t1, b, 1);
    }
    assert t1 == Prepared(t, a, b);
    t', reports := StartExchange(t, a, b, t1);
  }

  /**
   Lines 415-450: let the services run in any order until the manager has read its last reply. That
   moment, not the later one at which all services are idle, is what t' and `reports` describe.
   */
  method StartExchange(t: Service, a: string, b: string, t1: Service)
    returns (t': Service, reports: seq<Report>)
    requires DistinctNames(t) && Unset(t) && a in Preorder(t) && b in Preorder(t) && a != b
    requires t1 == Prepared(t, a, b)
    ensures t' == Exchanged(t, a, b)
    ensures reports == [Report(a, At(t, Locate(t, b)).secret), Report(b, At(t, Locate(t, a)).secret)]
  {
    var c := Setup(t1, a, b);
    FindsPrepare(t, a, b);
    ghost var l := PlanFor(c, Locate(t, a), Locate(t, b));
    StartInv(l);
    var net := Start(c);
    PrefixesExist(l, net);
    assert l.On([]);
    while !ManagerReturns(net)
      invariant Inv(l, net)
      invariant forall j :: 0 <= j <= |l.pathA| ==> l.pathA[..j] in net.procs
      invariant forall j :: 0 <= j <= |l.pathB| ==> l.pathB[..j] in net.procs
      decreases AllSteps(l, net)
    {
      assert [] in net.procs;
      ghost var next := NobodyIsStuck(l, net, []);
      assert next in net.procs && Enabled(c, net, next);
      var q :| q in net.procs && Enabled(c, net, q);
      InvStep(l, net, q);
      assert NodeInv(l, net, q);
      StepHasEffect(l, net, q);
      AllStepsAreSpent(l, net, q, Step(c, net, q));
      net := Step(c, net, q);
    }
    SettledAtReturn(l, net);
    RegistersAfterFinds(t, a, b, Locate(t, a));
    RegistersAfterFinds(t, a, b, Locate(t, b));
    CollectedIsExchanged(t, a, b, net);
    t', reports := Collected(t1, net.procs, []), net.fifos.reports;
  }

  lemma DistinctByIndex(names: seq<string>)
    requires forall x :: multiset(names)[x] <= 1
    ensures forall i, j :: 0 <= i < j < |names| ==> names[i] != names[j]
  {
    forall i, j | 0 <= i < j < |names| ensures names[i] != names[j] {
      var x := names[i];
      assert names == names[..j] + names[j..];
      assert multiset(names)[x] == multiset(names[..j])[x] + multiset(names[j..])[x];
      assert x in names[..j];
      assert x !in names[j..] && names[j] == names[j..][0];
    }
  }

  // ---------------------------------------------------------------------------------------------
  // Spawn and kill as the manager reports them

  /** What `spawn` comes to: lines 323-328, or no end at all. */
  datatype SpawnOutcome = HasChild(t: Service) | NoSuchParent | NeverReturns

  /** The manager decides by the last reply it has read, or by having no children. */
  method SpawnCommand(t: Service, parent: string, child: string, secret: nat)
    returns (outcome: SpawnOutcome, received: seq<string>)
    ensures outcome.NoSuchParent? <==> parent !in Preorder(t)
    ensures outcome.NeverReturns? <==> parent in Preorder(t) && child == t.name
    ensures outcome.HasChild? ==> outcome.t == Spawned(t, parent, Service(child, secret, UNSET, []))
    ensures received == UpTo(Preorder(t), parent)
  {
    var t', reply, last;
    t', reply, last, received := ServiceCommands.Spawn(t, parent, Service(child, secret, UNSET, []), t.name);
    if reply.Silence? {
      return NeverReturns, received;
    }
    var shown := if |t'.children| == 0 then SpawnFailed else last;
    outcome := if shown.SpawnFailed? then NoSuchParent else HasChild(t');
  }

  /** What `kill` prints, with the number of child services: lines 146 and 377-384. */
  datatype KillOutcome = AllKilled(descendants: int) | Killed(t: Service, descendants: int) | NotExist

  method KillCommand(t: Service, target: string) returns (outcome: KillOutcome, received: seq<string>)
    ensures received == UpTo(Preorder(t), target)
    ensures outcome.AllKilled? <==> target == t.name
    ensures outcome.NotExist? <==> target !in Preorder(t)
    ensures !outcome.NotExist? ==> outcome.descendants == Size(At(t, Locate(t, target))) - 1
    ensures outcome.Killed? ==>
              && outcome.t == Cut(t, Locate(t, target))
              && Size(outcome.t) + outcome.descendants + 1 == Size(t)
  {
    var reply;
    reply, received := ServiceCommands.Kill(t, target);
    match reply
    case Died(n) => outcome := AllKilled(n - 1);
    case Failed => outcome := NotExist;
    case Removed(t', n) =>
      outcome := Killed(t', n - 1);
      PreorderOfCut(t, Locate(t, target));
      PutBack(t, Locate(t, target));
  }

  // ---------------------------------------------------------------------------------------------
  // What commands mean

  datatype Command =
    | Spawn(parent: string, child: string, secret: nat)
    | Kill(target: string)
    | Exchange(a: string, b: string)

  /** What the services print. All of them share one output. */
  datatype Line =
    | HasReceived(service: string, cmd: Command)
    | HasBeenSpawned(service: string, secret: nat)
    | HasSpawned(parent: string, child: string)
    | DoesNotExist(name: string)
    | AreKilled(target: string, descendants: int)
    | HasAcquired(service: string, from: string, secret: nat)
    | HaveExchanged(a: string, b: string)

  /**
   After a command there is a tree of services; or none, when the manager itself was killed; or the
   manager waits for ever for a new service that bears its name.
   */
  datatype Outcome = Serving(t: Service) | Ended | Hung

  /** No other service has the name by which the manager knows itself. */
  predicate OneManager(t: Service) {
    t.name !in Forest(t.children)
  }

  /** Exchange needs two different services that exist, in a tree with distinct names. */
  ghost predicate Allowed(t: Service, cmd: Command) {
    cmd.Exchange? ==> DistinctNames(t) && cmd.a != cmd.b && cmd.a in Preorder(t) && cmd.b in Preorder(t)
  }

  /** What a command does to the tree. */
  ghost function Perform(t: Service, cmd: Command): Outcome
    requires Allowed(t, cmd)
  {
    match cmd
    case Spawn(parent, child, secret) =>
      if parent !in Preorder(t) then Serving(t)
      else if child == t.name then Hung
      else Serving(Spawned(t, parent, Service(child, secret, UNSET, [])))
    case Kill(target) =>
      if target == t.name then Ended
      else Serving(if target in Preorder(t) then Cut(t, Locate(t, target)) else t)
    case Exchange(a, b) => Serving(Exchanged(t, a, b))
  }

  function Receipts(names: seq<string>, cmd: Command): seq<Line> {
    seq(|names|, i requires 0 <= i < |names| => HasReceived(names[i], cmd))
  }

  /** The services that report receiving a command. */
  ghost function Receivers(t: Service, cmd: Command): seq<string>
  {
    match cmd
    case Spawn(parent, _, _) => UpTo(Preorder(t), parent)
    case Kill(target) => UpTo(Preorder(t), target)
    case Exchange(a, b) => UpToBoth(Preorder(t), a, b)
  }

  /** What is reported of its outcome. */
  ghost function Reported(t: Service, cmd: Command): seq<Line>
    requires Allowed(t, cmd)
  {
    match cmd
    case Spawn(parent, child, secret) =>
      if parent !in Preorder(t) then [DoesNotExist(parent)]
      else if child == t.name then [HasBeenSpawned(child, secret)]
      else [HasBeenSpawned(child, secret), HasSpawned(parent, child)]
    case Kill(target) =>
      if target in Preorder(t) then [AreKilled(target, Size(At(t, Locate(t, target))) - 1)]
      else [DoesNotExist(target)]
    case Exchange(a, b) =>
      [HasAcquired(a, b, At(t, Locate(t, b)).secret), HasAcquired(b, a, At(t, Locate(t, a)).secret),
       HaveExchanged(a, b)]
  }

  /** What a command prints. */
  ghost function Printed(t: Service, cmd: Command): seq<Line>
    requires Allowed(t, cmd)
  {
    Receipts(Receivers(t, cmd), cmd) + Reported(t, cmd)
  }

  method HandleSpawn(t: Service, cmd: Command) returns (outcome: Outcome, printed: seq<Line>)
    requires cmd.Spawn?
    ensures outcome == Perform(t, cmd) && printed == Printed(t, cmd)
  {
    var end, received := SpawnCommand(t, cmd.parent, cmd.child, cmd.secret);
    printed := Receipts(received, cmd);
    match end
    case NoSuchParent =>
      outcome, printed := Serving(t), printed + [DoesNotExist(cmd.parent)];
    case NeverReturns =>
      outcome, printed := Hung, printed + [HasBeenSpawned(cmd.child, cmd.secret)];
    case HasChild(t') =>
      outcome := Serving(t');
      printed := printed + [HasBeenSpawned(cmd.child, cmd.secret), HasSpawned(cmd.parent, cmd.child)];
  }

  method HandleKill(t: Service, cmd: Command) returns (outcome: Outcome, printed: seq<Line>)
    requires cmd.Kill?
    ensures outcome == Perform(t, cmd) && printed == Printed(t, cmd)
  {
    var end, received := KillCommand(t, cmd.target);
    printed := Receipts(received, cmd);
    match end
    case AllKilled(n) =>
      outcome, printed := Ended, printed + [AreKilled(cmd.target, n)];
    case Killed(t', n) =>
      outcome, printed := Serving(t'), printed + [AreKilled(cmd.target, n)];
    case NotExist =>
      outcome, printed := Serving(t), printed + [DoesNotExist(cmd.target)];
  }

  /** The reports at the FIFOs as they are printed, each with the name of the partner. */
  function Acquisitions(reports: seq<Report>, a: string, b: string): seq<Line> {
    seq(|reports|, i requires 0 <= i < |reports| =>
      var r := reports[i]; HasAcquired(r.service, if r.service == a then b else a, r.secret))
  }

  lemma BothAcquire(a: string, b: string, x: nat, y: nat)
    requires a != b
    ensures Acquisitions([Report(a, x), Report(b, y)], a, b) + [HaveExchanged(a, b)]
            == [HasAcquired(a, b, x), HasAcquired(b, a, y), HaveExchanged(a, b)]
  {
  }

  method HandleExchange(t: Service, cmd: Command) returns (outcome: Outcome, printed: seq<Line>)
    requires cmd.Exchange? && Unset(t) && Allowed(t, cmd)
    ensures outcome == Perform(t, cmd) && printed == Printed(t, cmd)
  {
    var t', received, reports := ExchangeCommand(t, cmd.a, cmd.b);
    outcome := Serving(t');
    printed := Receipts(received, cmd) + (Acquisitions(reports, cmd.a, cmd.b) + [HaveExchanged(cmd.a, cmd.b)]);
    BothAcquire(cmd.a, cmd.b, reports[0].secret, reports[1].secret);
  }

  /** One turn of the manager's command loop. */
  method Handle(t: Service, cmd: Command) returns (outcome: Outcome, printed: seq<Line>)
    requires OneManager(t) && Unset(t) && Allowed(t, cmd)
    ensures outcome == Perform(t, cmd)
    ensures printed == Printed(t, cmd)
  {
    match cmd
    case Spawn(_, _, _) => outcome, printed := HandleSpawn(t, cmd);
    case Kill(_) => outcome, printed := HandleKill(t, cmd);
    case Exchange(_, _) => outcome, printed := HandleExchange(t, cmd);
  }

  // ---------------------------------------------------------------------------------------------
  // Runs of commands

  ghost predicate AllAllowed(t: Service, cmds: seq<Command>)
    decreases |cmds|
  {
    cmds == [] ||
    (Allowed(t, cmds[0]) && var next := Perform(t, cmds[0]); next.Serving? ==> AllAllowed(next.t, cmds[1..]))
  }

  /** What a run of commands leaves; a manager that has ended or hangs reads no more commands. */
  ghost function PerformAll(t: Service, cmds: seq<Command>): Outcome
    requires AllAllowed(t, cmds)
    decreases |cmds|
  {
    if cmds == [] then Serving(t)
    else match Perform(t, cmds[0])
         case Serving(t') => PerformAll(t', cmds[1..])
         case end => end
  }

  ghost function PrintedByAll(t: Service, cmds: seq<Command>): seq<Line>
    requires AllAllowed(t, cmds)
    decreases |cmds|
  {
    if cmds == [] then []
    else Printed(t, cmds[0]) +
         match Perform(t, cmds[0])
         case Serving(t') => PrintedByAll(t', cmds[1..])
         case _ => []
  }

  /** The first i commands, or those the manager has read, have led to `outcome` and printed `printed`. */
  ghost predicate Performed(t: Service, cmds: seq<Command>, i: nat, outcome: Outcome, printed: seq<Line>)
    requires AllAllowed(t, cmds) && i <= |cmds|
  {
    match outcome
    case Serving(u) =>
      && OneManager(u) && Unset(u) && AllAllowed(u, cmds[i..])
      && PerformAll(t, cmds) == PerformAll(u, cmds[i..])
      && PrintedByAll(t, cmds) == printed + PrintedByAll(u, cmds[i..])
    case end => PerformAll(t, cmds) == end && PrintedByAll(t, cmds) == printed
  }

  lemma RunSplits(u: Service, cmds: seq<Command>, i: nat)
    requires i < |cmds| && AllAllowed(u, cmds[i..])
    ensures Allowed(u, cmds[i])
    ensures match Perform(u, cmds[i])
            case Serving(u') =>
              && AllAllowed(u', cmds[i + 1..]) && PerformAll(u, cmds[i..]) == PerformAll(u', cmds[i + 1..])
              && PrintedByAll(u, cmds[i..]) == Printed(u, cmds[i]) + PrintedByAll(u', cmds[i + 1..])
            case end => PerformAll(u, cmds[i..]) == end && PrintedByAll(u, cmds[i..]) == Printed(u, cmds[i])
  {
    assert cmds[i..][0] == cmds[i] && cmds[i..][1..] == cmds[i + 1..];
  }

  lemma LinesAssoc(a: seq<Line>, b: seq<Line>, c: seq<Line>)
    ensures (a + b) + c == a + (b + c)
  {
  }

  lemma PerformedStep(t: Service, cmds: seq<Command>, i: nat, u: Service, printed: seq<Line>)
    requires AllAllowed(t, cmds) && i < |cmds| && Performed(t, cmds, i, Serving(u), printed)
    ensures Allowed(u, cmds[i])
    ensures Performed(t, cmds, i + 1, Perform(u, cmds[i]), printed + Printed(u, cmds[i]))
  {
    RunSplits(u, cmds, i);
    UnsetStays(u, cmds[i]);
    OneManagerStays(u, cmds[i]);
    match Perform(u, cmds[i])
    case Serving(u') => LinesAssoc(printed, Printed(u, cmds[i]), PrintedByAll(u', cmds[i + 1..]));
    case _ =>
  }

  /** The manager's command loop: any run of allowed commands does and prints what the commands mean. */
  method Manage(t: Service, cmds: seq<Command>) returns (outcome: Outcome, printed: seq<Line>)
    requires OneManager(t) && Unset(t) && AllAllowed(t, cmds)
    ensures outcome == PerformAll(t, cmds)
    ensures printed == PrintedByAll(t, cmds)
    ensures outcome.Serving? ==> OneManager(outcome.t) && Unset(outcome.t)
  {
    outcome, printed := Serving(t), [];
    var i := 0;
    assert cmds[0..] == cmds;
    while i < |cmds| && outcome.Serving?
      invariant 0 <= i <= |cmds| && Performed(t, cmds, i, outcome, printed)
      decreases |cmds| - i
    {
      PerformedStep(t, cmds, i, outcome.t, printed);
      var lines;
      outcome, lines := Handle(outcome.t, cmds[i]);
      printed := printed + lines;
      i := i + 1;
    }
  }

  // ---------------------------------------------------------------------------------------------
  // What commands keep

  ghost predicate Kept(t: Service) {
    DistinctNames(t) && Unset(t)
  }

  lemma {:induction false} WithSecretsKeeps(t: Service, a: string, va: nat, b: string, vb: nat)
    ensures Preorder(WithSecrets(t, a, va, b, vb)) == Preorder(t)
    ensures Unset(t) ==> Unset(WithSecrets(t, a, va, b, vb))
    decreases t, 1
  {
    var cs := WithSecrets(t, a, va, b, vb).children;
    ForestWithSecretsKeeps(t.children, cs, a, va, b, vb);
    if Unset(t) {
      forall i | 0 <= i < |cs| ensures Unset(cs[i]) {
        WithSecretsKeeps(t.children[i], a, va, b, vb);
      }
    }
  }

  lemma {:induction false} ForestWithSecretsKeeps(
    ts: seq<Service>, us: seq<Service>, a: string, va: nat, b: string, vb: nat)
    requires |us| == |ts| && forall i :: 0 <= i < |ts| ==> us[i] == WithSecrets(ts[i], a, va, b, vb)
    ensures Forest(us) == Forest(ts)
    decreases ts, 0
  {
    if ts != [] {
      WithSecretsKeeps(ts[0], a, va, b, vb);
      ForestWithSecretsKeeps(ts[1..], us[1..], a, va, b, vb);
    }
  }

  /** A spawn adds the new name right behind the subtree it joins. */
  lemma PreorderOfSpawned(t: Service, parent: string, child: Service)
    requires parent in Preorder(t) && child.children == []
    ensures var p := Locate(t, parent);
            Preorder(Spawned(t, parent, child)) == Before(t, p) + (Preorder(At(t, p)) + [child.name]) + After(t, p)
  {
    var p := Locate(t, parent);
    var u := At(t, p);
    var u' := u.(children := u.children + [child]);
    PreorderOfPut(t, p, u');
    ForestConcat(u.children, [child]);
    assert [child][1..] == [] && Preorder(child) == [child.name];
    assert Forest([child]) == [child.name];
    Assoc([u.name], Forest(u.children), [child.name]);
  }

  lemma SpawnKeepsNames(t: Service, parent: string, child: Service)
    requires DistinctNames(t) && parent in Preorder(t) && child.name !in Preorder(t) && child.children == []
    ensures DistinctNames(Spawned(t, parent, child))
  {
    var p := Locate(t, parent);
    var before, inside, after := Before(t, p), Preorder(At(t, p)), After(t, p);
    PutBack(t, p);
    PreorderOfSpawned(t, parent, child);
    forall x ensures multiset(Preorder(Spawned(t, parent, child)))[x] <= 1 {
      CountWithOneMore(before, inside, after, child.name, x);
    }
  }

  lemma SpawnKeeps(t: Service, parent: string, child: Service)
    requires Kept(t) && parent in Preorder(t)
    requires child.name !in Preorder(t) && child.children == [] && child.regs == UNSET
    ensures Kept(Spawned(t, parent, child))
  {
    var p := Locate(t, parent);
    var u := At(t, p);
    UnsetAt(t, p);
    UnsetPut(t, p, u.(children := u.children + [child]));
    SpawnKeepsNames(t, parent, child);
  }

  lemma CountWithOneMore(before: seq<string>, inside: seq<string>, after: seq<string>, new_: string, x: string)
    ensures multiset(before + (inside + [new_]) + after)[x]
            == multiset(before + inside + after)[x] + if x == new_ then 1 else 0
  {
  }

  lemma KillKeeps(t: Service, target: string)
    requires Kept(t) && target in Preorder(t) && target != t.name
    ensures Kept(Cut(t, Locate(t, target)))
  {
    var p := Locate(t, target);
    UnsetCut(t, p);
    PutBack(t, p);
    PreorderOfCut(t, p);
    forall x ensures multiset(Preorder(Cut(t, p)))[x] <= 1 {
      assert multiset(Preorder(t))[x]
          == multiset(Before(t, p))[x] + multiset(Preorder(At(t, p)))[x] + multiset(After(t, p))[x];
    }
  }

  /** Every command leaves all registers at -1. */
  lemma UnsetStays(t: Service, cmd: Command)
    requires Unset(t) && Allowed(t, cmd)
    ensures Perform(t, cmd).Serving? ==> Unset(Perform(t, cmd).t)
  {
    match cmd
    case Spawn(parent, child, secret) =>
      if parent in Preorder(t) && child != t.name {
        var p := Locate(t, parent);
        UnsetAt(t, p);
        UnsetPut(t, p, At(t, p).(children := At(t, p).children + [Service(child, secret, UNSET, [])]));
      }
    case Kill(target) =>
      if target != t.name && target in Preorder(t) {
        UnsetCut(t, Locate(t, target));
      }
    case Exchange(a, b) =>
      WithSecretsKeeps(t, a, At(t, Locate(t, b)).secret, b, At(t, Locate(t, a)).secret);
  }

  lemma OccursOnce(names: seq<string>, name: string)
    requires names != [] && names[0] == name
    ensures name !in names[1..] <==> multiset(names)[name] == 1
  {
    assert names == [name] + names[1..];
  }

  /** The manager's name occurs once in the preorder. */
  lemma OneManagerCounts(t: Service)
    ensures OneManager(t) <==> multiset(Preorder(t))[t.name] == 1
  {
    assert Preorder(t)[1..] == Forest(t.children);
    OccursOnce(Preorder(t), t.name);
  }

  lemma SpawnKeepsManager(t: Service, parent: string, child: Service)
    requires OneManager(t) && parent in Preorder(t) && child.children == [] && child.name != t.name
    ensures OneManager(Spawned(t, parent, child))
  {
    var p := Locate(t, parent);
    PutBack(t, p);
    PreorderOfSpawned(t, parent, child);
    CountWithOneMore(Before(t, p), Preorder(At(t, p)), After(t, p), child.name, t.name);
    OneManagerCounts(t);
    OneManagerCounts(Spawned(t, parent, child));
  }

  lemma KillKeepsManager(t: Service, target: string)
    requires OneManager(t) && target in Preorder(t) && target != t.name
    ensures OneManager(Cut(t, Locate(t, target)))
  {
    var p := Locate(t, target);
    PutBack(t, p);
    PreorderOfCut(t, p);
    var before, inside, after := Before(t, p), Preorder(At(t, p)), After(t, p);
    assert multiset(before + inside + after)[t.name]
        == multiset(before + after)[t.name] + multiset(inside)[t.name];
    OneManagerCounts(t);
    OneManagerCounts(Cut(t, p));
    assert t.name == Preorder(Cut(t, p))[0];
  }

  /** No command that returns brings a second manager. */
  lemma OneManagerStays(t: Service, cmd: Command)
    requires OneManager(t) && Allowed(t, cmd)
    ensures Perform(t, cmd).Serving? ==> OneManager(Perform(t, cmd).t)
  {
    match cmd
    case Spawn(parent, child, secret) =>
      if parent in Preorder(t) && child != t.name {
        SpawnKeepsManager(t, parent, Service(child, secret, UNSET, []));
      }
    case Kill(target) =>
      if target != t.name && target in Preorder(t) {
        KillKeepsManager(t, target);
      }
    case Exchange(a, b) =>
      var va, vb := At(t, Locate(t, b)).secret, At(t, Locate(t, a)).secret;
      WithSecretsKeeps(t, a, va, b, vb);
      assert Preorder(t)[1..] == Forest(t.children);
      assert Preorder(WithSecrets(t, a, va, b, vb))[1..] == Forest(WithSecrets(t, a, va, b, vb).children);
  }

  /** Use as intended: new services get new names, and exchange names two different services that exist. */
  predicate Intended(t: Service, cmd: Command) {
    match cmd
    case Spawn(_, child, _) => child !in Preorder(t)
    case Kill(_) => true
    case Exchange(a, b) => a != b && a in Preorder(t) && b in Preorder(t)
  }

  /** Such a command returns, or ends the manager, and leaves distinct names and unset registers behind. */
  lemma PerformKeeps(t: Service, cmd: Command)
    requires Kept(t) && Intended(t, cmd)
    ensures Allowed(t, cmd) && !Perform(t, cmd).Hung?
    ensures Perform(t, cmd).Serving? ==> Kept(Perform(t, cmd).t)
  {
    match cmd
    case Spawn(parent, child, secret) =>
      if parent in Preorder(t) {
        SpawnKeeps(t, parent, Service(child, secret, UNSET, []));
      }
    case Kill(target) =>
      if target != t.name && target in Preorder(t) {
        KillKeeps(t, target);
      }
    case Exchange(a, b) =>
      WithSecretsKeeps(t, a, At(t, Locate(t, b)).secret, b, At(t, Locate(t, a)).secret);
  }

  ghost predicate AllIntended(t: Service, cmds: seq<Command>)
    decreases |cmds|
  {
    cmds == [] ||
    (Intended(t, cmds[0]) && (Allowed(t, cmds[0]) ==>
       var next := Perform(t, cmds[0]); next.Serving? ==> AllIntended(next.t, cmds[1..])))
  }

  /** A run used as intended can always be carried out, and keeps names distinct and registers unset throughout. */
  lemma {:induction false} IntendedRunsAreAllowed(t: Service, cmds: seq<Command>)
    requires Kept(t) && AllIntended(t, cmds)
    ensures AllAllowed(t, cmds) && !PerformAll(t, cmds).Hung?
    ensures PerformAll(t, cmds).Serving? ==> Kept(PerformAll(t, cmds).t)
    decreases |cmds|
  {
    if cmds != [] {
      PerformKeeps(t, cmds[0]);
      var next := Perform(t, cmds[0]);
      if next.Serving? {
        IntendedRunsAreAllowed(next.t, cmds[1..]);
      }
    }
  }
}
