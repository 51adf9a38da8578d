/**
 What the commands of the service tree do, told place by place and line by line: which services are
 where before and after a command, and what each printed line says about the two trees.
 */
module ServiceLaws {
  import opened ServiceTree
  import opened ServiceCommands
  import opened ServiceRuns

  // ---------------------------------------------------------------------------------------------
  // Place by place

  /** The service has the same name, secret and registers, and `more` more children. */
  predicate Same(u: Service, v: Service, more: int) {
    u.name == v.name && u.secret == v.secret && u.regs == v.regs && |u.children| == |v.children| + more
  }

  lemma {:induction false} PutAt(t: Service, p: Path, u: Service, q: Path)
    requires IsPath(t, p)
    ensures p <= q ==> (IsPath(Put(t, p, u), q) <==> IsPath(u, q[|p|..]))
    ensures p <= q && IsPath(u, q[|p|..]) ==> At(Put(t, p, u), q) == At(u, q[|p|..])
    ensures !(p <= q) ==> (IsPath(Put(t, p, u), q) <==> IsPath(t, q))
    ensures !(p <= q) && IsPath(t, q) ==> Same(At(Put(t, p, u), q), At(t, q), 0)
    decreases |p|
  {
    if p == [] {
      assert q[0..] == q;
    } else if q != [] && q[0] == p[0] {
      PutAt(t.children[p[0]], p[1..], u, q[1..]);
      assert p <= q <==> p[1..] <= q[1..];
      assert p <= q ==> q[|p|..] == q[1..][|p| - 1..];
    }
  }

  /** The same for the tree itself. */
  lemma AtBelow(t: Service, p: Path, q: Path)
    requires IsPath(t, p) && p <= q
    ensures IsPath(t, q) <==> IsPath(At(t, p), q[|p|..])
    ensures IsPath(t, q) ==> At(t, q) == At(At(t, p), q[|p|..])
  {
    PutBack(t, p);
    PutAt(t, p, At(t, p), q);
  }

  /** A service with one more child, seen from below. */
  lemma OneMoreChild(u: Service, child: Service, q: Path)
    ensures var u' := u.(children := u.children + [child]);
            && (IsPath(u, q) ==> IsPath(u', q) && Same(At(u', q), At(u, q), if q == [] then 1 else 0))
            && (IsPath(u', q) && !IsPath(u, q) ==> [|u.children|] <= q)
            && IsPath(u', [|u.children|]) && At(u', [|u.children|]) == child
  {
    assert [|u.children|][1..] == [];
  }

  lemma NewChildAt(t: Service, p: Path, child: Service)
    requires IsPath(t, p)
    ensures var u := At(t, p);
            var t', new_ := Put(t, p, u.(children := u.children + [child])), p + [|u.children|];
            IsPath(t', new_) && At(t', new_) == child
  {
    var u := At(t, p);
    var new_ := p + [|u.children|];
    PutAt(t, p, u.(children := u.children + [child]), new_);
    assert new_[|p|..] == [|u.children|];
    OneMoreChild(u, child, []);
  }

  lemma OthersStay(t: Service, p: Path, child: Service, q: Path)
    requires IsPath(t, p)
    ensures var u := At(t, p);
            var t', new_ := Put(t, p, u.(children := u.children + [child])), p + [|u.children|];
            && (IsPath(t, q) ==> IsPath(t', q) && Same(At(t', q), At(t, q), if q == p then 1 else 0))
            && (IsPath(t', q) && !IsPath(t, q) ==> new_ <= q)
  {
    var u := At(t, p);
    PutAt(t, p, u.(children := u.children + [child]), q);
    if p <= q {
      AtBelow(t, p, q);
      OneMoreChild(u, child, q[|p|..]);
      assert q == p + q[|p|..];
    }
  }

  /**
   A spawn adds the new service as last child of the first service called `parent`: there it is, and
   every other service is where it was, with its name, secret, registers and children.
   */
  lemma SpawnedAt(t: Service, parent: string, child: Service, q: Path)
    requires parent in Preorder(t)
    ensures var p, t' := Locate(t, parent), Spawned(t, parent, child);
            var new_ := p + [|At(t, p).children|];
            && IsPath(t', new_) && At(t', new_) == child
            && (IsPath(t, q) ==> IsPath(t', q) && Same(At(t', q), At(t, q), if q == p then 1 else 0))
            && (IsPath(t', q) && !IsPath(t, q) ==> new_ <= q)
  {
    NewChildAt(t, Locate(t, parent), child);
    OthersStay(t, Locate(t, parent), child, q);
  }

  /** Where the service at q is after the subtree at p is gone: its later siblings move up by one. */
  function Shifted(p: Path, q: Path): Path
    requires p != []
  {
    var r := |p| - 1;
    if p[..r] <= q && |q| > r && q[r] > p[r] then q[r := q[r] - 1] else q
  }

  /** And back. */
  function Unshifted(p: Path, q: Path): Path
    requires p != []
  {
    var r := |p| - 1;
    if p[..r] <= q && |q| > r && q[r] >= p[r] then q[r := q[r] + 1] else q
  }

  lemma ParentBelow(p: Path, q: Path)
    requires |p| > 1 && q != [] && q[0] == p[0]
    ensures p[..|p| - 1] <= q <==> p[1..][..|p| - 2] <= q[1..]
    ensures p <= q <==> p[1..] <= q[1..]
  {
  }

  lemma ShiftBelow(p: Path, q: Path)
    requires |p| > 1 && q != [] && q[0] == p[0]
    ensures Shifted(p, q) == [q[0]] + Shifted(p[1..], q[1..])
    ensures p <= q <==> p[1..] <= q[1..]
  {
    ParentBelow(p, q);
  }

  lemma UnshiftBelow(p: Path, q: Path)
    requires |p| > 1 && q != [] && q[0] == p[0]
    ensures Unshifted(p, q) == [q[0]] + Unshifted(p[1..], q[1..])
  {
    ParentBelow(p, q);
  }

  lemma ShiftElsewhere(p: Path, q: Path)
    requires |p| > 1 && (q == [] || q[0] != p[0])
    ensures Shifted(p, q) == q && Unshifted(p, q) == q && !(p <= q)
  {
    assert p[..|p| - 1] != [] && p[..|p| - 1][0] == p[0];
  }

  /**
   A kill removes the services at p and below it and no other: every other service keeps its name,
   secret and registers, and all its children but for the parent of the one removed.
   */
  lemma {:induction false} CutAt(t: Service, p: Path, q: Path)
    requires IsPath(t, p) && p != [] && IsPath(t, q) && !(p <= q)
    ensures var q' := Shifted(p, q);
            && IsPath(Cut(t, p), q')
            && Same(At(Cut(t, p), q'), At(t, q), if q == p[..|p| - 1] then -1 else 0)
    decreases |p|
  {
    if |p| == 1 {
      assert p[..0] == [];
      if q != [] {
        assert Shifted(p, q)[1..] == q[1..];
      }
    } else if q != [] && q[0] == p[0] {
      ShiftBelow(p, q);
      CutAt(t.children[p[0]], p[1..], q[1..]);
      assert Shifted(p, q)[1..] == Shifted(p[1..], q[1..]);
      assert q == p[..|p| - 1] <==> q[1..] == p[1..][..|p| - 2];
    } else {
      ShiftElsewhere(p, q);
      assert p[..|p| - 1] != [] && p[..|p| - 1][0] == p[0];
    }
  }

  lemma CutChildHasNoMore(t: Service, k: nat, q: Path)
    requires k < |t.children| && IsPath(Cut(t, [k]), q)
    ensures IsPath(t, Unshifted([k], q)) && !([k] <= Unshifted([k], q)) && Shifted([k], Unshifted([k], q)) == q
  {
    assert [k][..0] == [];
    if q != [] {
      assert Unshifted([k], q)[1..] == q[1..];
    }
  }

  /** Nothing else is in the tree after a kill. */
  lemma {:induction false} CutHasNoMore(t: Service, p: Path, q: Path)
    requires IsPath(t, p) && p != [] && IsPath(Cut(t, p), q)
    ensures IsPath(t, Unshifted(p, q)) && !(p <= Unshifted(p, q)) && Shifted(p, Unshifted(p, q)) == q
    decreases |p|
  {
    if |p| == 1 {
      assert p == [p[0]];
      CutChildHasNoMore(t, p[0], q);
    } else if q != [] && q[0] == p[0] {
      UnshiftBelow(p, q);
      CutHasNoMore(t.children[p[0]], p[1..], q[1..]);
      var q' := Unshifted(p, q);
      assert q'[0] == p[0] && q'[1..] == Unshifted(p[1..], q[1..]);
      ShiftBelow(p, q');
    } else {
      ShiftElsewhere(p, q);
    }
  }

  lemma {:induction false} WithSecretsAt(t: Service, a: string, va: nat, b: string, vb: nat, q: Path)
    ensures IsPath(WithSecrets(t, a, va, b, vb), q) <==> IsPath(t, q)
    ensures IsPath(t, q) ==>
              var u, u' := At(t, q), At(WithSecrets(t, a, va, b, vb), q);
              && u'.name == u.name && u'.regs == u.regs && |u'.children| == |u.children|
              && u'.secret == if u.name == a then va else if u.name == b then vb else u.secret
    decreases |q|
  {
    if q != [] && q[0] < |t.children| {
      WithSecretsAt(t.children[q[0]], a, va, b, vb, q[1..]);
    }
  }

  function SecretOf(t: Service, x: string): nat
    requires x in Preorder(t)
  {
    At(t, Locate(t, x)).secret
  }

  /** An exchange gives each of the two services the other's secret, and changes nothing else anywhere. */
  lemma ExchangedAt(t: Service, a: string, b: string, q: Path)
    requires a in Preorder(t) && b in Preorder(t) && a != b
    ensures IsPath(Exchanged(t, a, b), q) <==> IsPath(t, q)
    ensures IsPath(t, q) ==>
              var u, u' := At(t, q), At(Exchanged(t, a, b), q);
              && u'.name == u.name && u'.regs == u.regs && |u'.children| == |u.children|
              && (u.name == a ==> u'.secret == SecretOf(t, b)) && (u.name == b ==> u'.secret == SecretOf(t, a))
              && (u.name != a && u.name != b ==> u'.secret == u.secret)
  {
    WithSecretsAt(t, a, SecretOf(t, b), b, SecretOf(t, a), q);
  }

  // ---------------------------------------------------------------------------------------------
  // How many services there are

  function Left(outcome: Outcome): nat
    requires !outcome.Hung?
  {
    if outcome.Serving? then Size(outcome.t) else 0
  }

  lemma SizeOfSpawned(t: Service, parent: string, child: Service)
    requires parent in Preorder(t) && child.children == []
    ensures Size(Spawned(t, parent, child)) == Size(t) + 1
  {
    PreorderOfSpawned(t, parent, child);
    PutBack(t, Locate(t, parent));
  }

  lemma SizeOfKilled(t: Service, x: string)
    requires x in Preorder(t)
    ensures Left(Perform(t, Kill(x))) + Size(At(t, Locate(t, x))) == Size(t)
  {
    if x != t.name {
      PreorderOfCut(t, Locate(t, x));
      PutBack(t, Locate(t, x));
    }
  }

  // ---------------------------------------------------------------------------------------------
  // Line by line

  /** Every line but a receipt is part of what is reported. */
  lemma NotAReceipt(t: Service, cmd: Command, line: Line)
    requires Allowed(t, cmd) && !line.HasReceived?
    ensures line in Printed(t, cmd) <==> line in Reported(t, cmd)
  {
  }

  /** "x and d child services are killed" is printed exactly when x existed, and d + 1 services are gone. */
  lemma KilledLine(t: Service, cmd: Command, x: string, d: int)
    requires Allowed(t, cmd)
    ensures AreKilled(x, d) in Printed(t, cmd) <==>
            && cmd == Kill(x) && x in Preorder(t)
            && !Perform(t, cmd).Hung? && d + 1 == Size(t) - Left(Perform(t, cmd))
  {
    NotAReceipt(t, cmd, AreKilled(x, d));
    if cmd == Kill(x) && x in Preorder(t) {
      SizeOfKilled(t, x);
    }
  }

  /**
   "x has acquired a new secret from y, value: v" is printed exactly when the two are exchanged and v
   was the secret of y; and then v is the secret of x afterwards.
   */
  lemma AcquiredLine(t: Service, cmd: Command, x: string, y: string, v: nat)
    requires Allowed(t, cmd)
    ensures HasAcquired(x, y, v) in Printed(t, cmd) <==>
            (cmd == Exchange(x, y) || cmd == Exchange(y, x)) && y in Preorder(t) && v == SecretOf(t, y)
    ensures HasAcquired(x, y, v) in Printed(t, cmd) ==>
              var end := Perform(t, cmd);
              && end.Serving? && x in Preorder(t) && IsPath(end.t, Locate(t, x))
              && At(end.t, Locate(t, x)).name == x && At(end.t, Locate(t, x)).secret == v
  {
    NotAReceipt(t, cmd, HasAcquired(x, y, v));
    if cmd.Exchange? {
      ExchangedAt(t, cmd.a, cmd.b, Locate(t, cmd.a));
      ExchangedAt(t, cmd.a, cmd.b, Locate(t, cmd.b));
    }
  }

  /**
   "p has spawned a new service c" is printed exactly when the command asks for it and the tree has
   grown by one service; and then that is c, the last child of the first service called p.
   */
  lemma SpawnedLine(t: Service, cmd: Command, p: string, c: string)
    requires Allowed(t, cmd)
    ensures HasSpawned(p, c) in Printed(t, cmd) <==>
            && cmd.Spawn? && cmd.parent == p && cmd.child == c
            && Perform(t, cmd).Serving? && Size(Perform(t, cmd).t) == Size(t) + 1
    ensures HasSpawned(p, c) in Printed(t, cmd) ==>
              var t' := Perform(t, cmd).t;
              && p in Preorder(t)
              && var new_ := Locate(t, p) + [|At(t, Locate(t, p)).children|];
                 IsPath(t', new_) && At(t', new_).name == c && At(t', new_).secret == cmd.secret
  {
    NotAReceipt(t, cmd, HasSpawned(p, c));
    if cmd.Spawn? && cmd.parent in Preorder(t) && cmd.child != t.name {
      var child := Service(cmd.child, cmd.secret, UNSET, []);
      SizeOfSpawned(t, cmd.parent, child);
      SpawnedAt(t, cmd.parent, child, []);
    }
  }

  /**
   "x doesn't exist" is printed exactly when a spawn or kill names a service that is not there; and
   then nothing changes.
   */
  lemma MissingLine(t: Service, cmd: Command, x: string)
    requires Allowed(t, cmd)
    ensures DoesNotExist(x) in Printed(t, cmd) <==>
            ((cmd.Spawn? && cmd.parent == x) || cmd == Kill(x)) && x !in Preorder(t)
    ensures DoesNotExist(x) in Printed(t, cmd) ==> Perform(t, cmd) == Serving(t)
  {
    NotAReceipt(t, cmd, DoesNotExist(x));
  }

  /** A new service announces itself exactly when its parent exists, even if the manager then hangs. */
  lemma StartedLine(t: Service, cmd: Command, c: string, v: nat)
    requires Allowed(t, cmd)
    ensures HasBeenSpawned(c, v) in Printed(t, cmd) <==>
            cmd.Spawn? && cmd.child == c && cmd.secret == v && cmd.parent in Preorder(t)
  {
    NotAReceipt(t, cmd, HasBeenSpawned(c, v));
  }

  /** A new service announces itself before it is reported; acquisitions come in order and before their report. */
  lemma LinesInOrder(t: Service, cmd: Command)
    requires Allowed(t, cmd)
    ensures var lines := Printed(t, cmd); var n := |lines|;
            && (cmd.Spawn? && cmd.parent in Preorder(t) && cmd.child != t.name ==>
                  n >= 2 && lines[n - 2].HasBeenSpawned? && lines[n - 1].HasSpawned?)
            && (cmd.Exchange? ==>
                  && n >= 3 && lines[n - 1] == HaveExchanged(cmd.a, cmd.b)
                  && lines[n - 3].HasAcquired? && lines[n - 3].service == cmd.a
                  && lines[n - 2].HasAcquired? && lines[n - 2].service == cmd.b)
  {
  }

  /** The prefix up to a name, as a prefix. */
  lemma {:induction false} UpToIsPrefix(names: seq<string>, x: string)
    ensures var r := |UpTo(names, x)|;
            && r <= |names| && UpTo(names, x) == names[..r]
            && (x in names ==> r > 0 && names[r - 1] == x && x !in names[..r - 1])
            && (x !in names ==> r == |names|)
  {
    if names != [] && names[0] != x {
      UpToIsPrefix(names[1..], x);
      var r := |UpTo(names[1..], x)|;
      assert names[..r + 1] == [names[0]] + names[1..][..r];
      assert r > 0 ==> names[..r] == [names[0]] + names[1..][..r - 1];
    }
  }

  /** The first r services of the preorder receive the command, and r is where the command ends. */
  ghost predicate ReceivedBy(names: seq<string>, cmd: Command, r: nat) {
    && r <= |names|
    && match cmd
       case Spawn(x, _, _) => EndsAt(names, x, r)
       case Kill(x) => EndsAt(names, x, r)
       case Exchange(a, b) =>
         && r > 0 && a in names[..r] && b in names[..r] && (names[r - 1] == a || names[r - 1] == b)
         && !(a in names[..r - 1] && b in names[..r - 1])
  }

  ghost predicate EndsAt(names: seq<string>, x: string, r: nat)
    requires r <= |names|
  {
    if x in names then r > 0 && names[r - 1] == x && x !in names[..r - 1] else r == |names|
  }

  lemma BothReached(names: seq<string>, a: string, b: string)
    requires a in names && b in names && a != b
    ensures var r := |UpToBoth(names, a, b)|;
            && r <= |names| && UpToBoth(names, a, b) == names[..r]
            && r > 0 && a in names[..r] && b in names[..r] && (names[r - 1] == a || names[r - 1] == b)
            && !(a in names[..r - 1] && b in names[..r - 1])
  {
    UpToIsPrefix(names, a);
    UpToIsPrefix(names, b);
    var i, j := |UpTo(names, a)|, |UpTo(names, b)|;
    assert names[..i][i - 1] == a && names[..j][j - 1] == b;
    if i >= j {
      assert names[..i][j - 1] == b;
    } else {
      assert names[..j][i - 1] == a;
    }
  }

  lemma ReceiversArePrefix(t: Service, cmd: Command)
    requires Allowed(t, cmd)
    ensures var r := |Receivers(t, cmd)|;
            ReceivedBy(Preorder(t), cmd, r) && Receivers(t, cmd) == Preorder(t)[..r]
  {
    match cmd
    case Spawn(x, _, _) => UpToIsPrefix(Preorder(t), x);
    case Kill(x) => UpToIsPrefix(Preorder(t), x);
    case Exchange(a, b) => BothReached(Preorder(t), a, b);
  }

  lemma ReportsAreNoReceipts(t: Service, cmd: Command, i: nat)
    requires Allowed(t, cmd) && i < |Reported(t, cmd)|
    ensures !Reported(t, cmd)[i].HasReceived?
  {
  }

  /**
   The first lines of a command are receipts, one by each service of the preorder up to the target of a
   spawn or kill, up to the later of the two services of an exchange, and by all when there is no
   target; no other line is a receipt.
   */
  lemma ReceiptsComeFirst(t: Service, cmd: Command) returns (r: nat)
    requires Allowed(t, cmd)
    ensures ReceivedBy(Preorder(t), cmd, r) && r <= |Printed(t, cmd)|
    ensures forall i :: 0 <= i < r ==> Printed(t, cmd)[i] == HasReceived(Preorder(t)[i], cmd)
    ensures forall i :: r <= i < |Printed(t, cmd)| ==> !Printed(t, cmd)[i].HasReceived?
  {
    r := |Receivers(t, cmd)|;
    ReceiversArePrefix(t, cmd);
    forall i | r <= i < |Printed(t, cmd)| ensures !Printed(t, cmd)[i].HasReceived? {
      ReportsAreNoReceipts(t, cmd, i - r);
    }
  }

  // ---------------------------------------------------------------------------------------------
  // Command by command

  /** A run of one command. */
  lemma OneCommand(t: Service, cmd: Command)
    ensures AllAllowed(t, [cmd]) <==> Allowed(t, cmd)
    ensures Allowed(t, cmd) ==> PerformAll(t, [cmd]) == Perform(t, cmd) && PrintedByAll(t, [cmd]) == Printed(t, cmd)
  {
    assert [cmd][1..] == [];
    if Allowed(t, cmd) && Perform(t, cmd).Serving? {
      assert PrintedByAll(Perform(t, cmd).t, []) == [];
    }
  }

  /** A run followed by another: first everything of the first, then, if the manager still serves, of the second. */
  lemma {:induction false} RunsInTurn(t: Service, first: seq<Command>, second: seq<Command>)
    requires AllAllowed(t, first + second)
    ensures AllAllowed(t, first)
    ensures match PerformAll(t, first)
            case Serving(u) =>
              && AllAllowed(u, second) && PerformAll(t, first + second) == PerformAll(u, second)
              && PrintedByAll(t, first + second) == PrintedByAll(t, first) + PrintedByAll(u, second)
            case end =>
              PerformAll(t, first + second) == end && PrintedByAll(t, first + second) == PrintedByAll(t, first)
    decreases |first|
  {
    if first == [] {
      assert first + second == second;
    } else {
      assert (first + second)[0] == first[0] && (first + second)[1..] == first[1..] + second;
      var next := Perform(t, first[0]);
      if next.Serving? {
        RunsInTurn(next.t, first[1..], second);
        var end := PerformAll(next.t, first[1..]);
        if end.Serving? {
          LinesAssoc(Printed(t, first[0]), PrintedByAll(next.t, first[1..]), PrintedByAll(end.t, second));
        }
      }
    }
  }
}
