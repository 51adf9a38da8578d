/**
 The sequential protocols of HW2: spawn, kill and the two passes that prepare an exchange.

 Each method is what one service does with one message: it forwards the message to its children in
 array order, reads each reply before it sends the next message, and finally replies to its parent.
 Only one service is active at a time, so "write to the child, then read its reply" is a call. The
 out-parameter `received` collects the services that print "has received".
 */
module ServiceCommands {
  import opened ServiceTree

  /** Where a depth-first search that has passed the children before k finds x in child k. */
  lemma FoundInChild(t: Service, x: string, k: nat)
    requires t.name != x && k < |t.children|
    requires x !in Forest(t.children[..k]) && x in Preorder(t.children[k])
    ensures x in Preorder(t)
    ensures Locate(t, x) == [k] + Locate(t.children[k], x)
    ensures UpTo(Preorder(t), x) == [t.name] + Forest(t.children[..k]) + UpTo(Preorder(t.children[k]), x)
  {
    FirstInIs(t.children, x, k);
    ForestAround(t.children, k);
    var before, inside := [t.name] + Forest(t.children[..k]), Preorder(t.children[k]);
    var rest := Forest(t.children[k + 1..]);
    assert Preorder(t) == before + (inside + rest);
    UpToConcat(before, inside + rest, x);
    UpToConcat(inside, rest, x);
  }

  lemma FoundNowhere(t: Service, x: string)
    requires t.name != x && x !in Forest(t.children)
    ensures x !in Preorder(t) && UpTo(Preorder(t), x) == [t.name] + Forest(t.children)
  {
    UpToMissing(Preorder(t), x);
  }

  // ---------------------------------------------------------------------------------------------
  // Spawn

  /** The first service called x has the child added behind its other children. */
  function Spawned(t: Service, x: string, child: Service): Service
    requires x in Preorder(t)
  {
    var p := Locate(t, x);
    var u := At(t, p);
    Put(t, p, u.(children := u.children + [child]))
  }

  /** A spawn below child k. */
  lemma SpawnedInChild(t: Service, x: string, child: Service, k: nat)
    requires t.name != x && k < |t.children|
    requires x !in Forest(t.children[..k]) && x in Preorder(t.children[k])
    ensures x in Preorder(t)
    ensures Spawned(t, x, child) == t.(children := t.children[k := Spawned(t.children[k], x, child)])
  {
    FoundInChild(t, x, k);
    assert Locate(t, x)[1..] == Locate(t.children[k], x);
  }

  /** What comes back from a service that was sent a spawn command, if anything does. */
  datatype SpawnReply = SpawnSuccess | SpawnFailed | Silence

  /**
   Lines 293-322. A service knows the manager by its name, and a new service that takes itself for
   the manager does not report to its parent (line 270): the parent waits for ever, and so does every
   service above it. `last` is the reply the service has read last, which decides what the manager
   prints; it agrees with `reply` whenever the service has children at the end.
   */
  method Spawn(self: Service, target: string, child: Service, manager: string)
    returns (self': Service, reply: SpawnReply, last: SpawnReply, received: seq<string>)
    ensures reply.SpawnFailed? <==> target !in Preorder(self)
    ensures reply.Silence? <==> target in Preorder(self) && child.name == manager
    ensures self' == if reply.SpawnFailed? then self else Spawned(self, target, child)
    ensures received == UpTo(Preorder(self), target)
    ensures self'.children != [] ==> last == reply
    ensures !reply.SpawnFailed? ==> self'.children != []
    decreases self
  {
    received := [self.name];
    if self.name == target {
      reply := if child.name == manager then Silence else SpawnSuccess;
      self', last := self.(children := self.children + [child]), reply;
      return;
    }
    self', reply, last := self, SpawnFailed, SpawnFailed;
    var i := 0;
    while i < |self.children|
      invariant 0 <= i <= |self.children|
      invariant self' == self && reply == last == SpawnFailed
      invariant target !in Forest(self.children[..i])
      invariant received == [self.name] + Forest(self.children[..i])
    {
      var child', answer, _, more := Spawn(self.children[i], target, child, manager);
      received, last := received + more, answer;
      if !answer.SpawnFailed? {
        FoundInChild(self, target, i);
        SpawnedInChild(self, target, child, i);
        self', reply := self.(children := self.children[i := child']), answer;
        return;
      }
      UpToMissing(Preorder(self.children[i]), target);
      ForestSnoc(self.children, i);
      i := i + 1;
    }
    assert self.children[..i] == self.children;
    FoundNowhere(self, target);
  }

  // ---------------------------------------------------------------------------------------------
  // Kill

  /** Lines 125-148: the number of services in the subtree, which all exit. */
  method Suicide(self: Service) returns (killed: nat)
    ensures killed == Size(self)
    decreases self
  {
    killed := 1;
    var i := 0;
    while i < |self.children|
      invariant 0 <= i <= |self.children|
      invariant killed == 1 + |Forest(self.children[..i])|
    {
      var n := Suicide(self.children[i]);
      killed := killed + n;
      ForestSnoc(self.children, i);
      i := i + 1;
    }
    assert self.children[..i] == self.children;
  }

  /** Lines 350-352: shift the children behind i one place forward. */
  method RemoveChild(children: seq<Service>, i: nat) returns (rest: seq<Service>)
    requires i < |children|
    ensures rest == children[..i] + children[i + 1..]
  {
    var shifted := children;
    var j := i + 1;
    while j < |children|
      invariant i + 1 <= j <= |children| == |shifted|
      invariant forall k :: 0 <= k < i ==> shifted[k] == children[k]
      invariant forall k :: i <= k < j - 1 ==> shifted[k] == children[k + 1]
      invariant forall k :: j <= k < |children| ==> shifted[k] == children[k]
    {
      shifted := shifted[j - 1 := children[j]];
      j := j + 1;
    }
    rest := shifted[..|children| - 1];
  }

  /** Cutting the first x when it is child k, and when it is below child k. */
  lemma CutInChild(t: Service, x: string, k: nat)
    requires t.name != x && k < |t.children|
    requires x !in Forest(t.children[..k]) && x in Preorder(t.children[k])
    ensures x in Preorder(t) && Locate(t, x) != [] && At(t, Locate(t, x)) == At(t.children[k], Locate(t.children[k], x))
    ensures UpTo(Preorder(t), x) == [t.name] + Forest(t.children[..k]) + UpTo(Preorder(t.children[k]), x)
    ensures t.children[k].name == x ==>
              && Cut(t, Locate(t, x)) == t.(children := t.children[..k] + t.children[k + 1..])
              && At(t, Locate(t, x)) == t.children[k]
              && UpTo(Preorder(t), x) == [t.name] + Forest(t.children[..k]) + [x]
    ensures t.children[k].name != x ==>
              && Locate(t.children[k], x) != []
              && Cut(t, Locate(t, x)) == t.(children := t.children[k := Cut(t.children[k], Locate(t.children[k], x))])
  {
    FoundInChild(t, x, k);
    assert Locate(t, x)[1..] == Locate(t.children[k], x);
  }

  /** The service was the target and is gone, or it has lost a subtree, or there is no target in its tree. */
  datatype KillReply = Died(killed: nat) | Removed(self: Service, killed: nat) | Failed

  /** What a kill has to do with tree t, report and reply. */
  ghost predicate KillsRight(t: Service, x: string, reply: KillReply, received: seq<string>) {
    && (reply.Died? <==> x == t.name)
    && (reply.Failed? <==> x !in Preorder(t))
    && (!reply.Failed? ==> x in Preorder(t) && reply.killed == Size(At(t, Locate(t, x))))
    && (reply.Removed? ==> reply.self == Cut(t, Locate(t, x)))
    && received == UpTo(Preorder(t), x)
  }

  lemma KillsChild(t: Service, x: string, k: nat)
    requires t.name != x && k < |t.children| && x !in Forest(t.children[..k]) && t.children[k].name == x
    ensures var t' := t.(children := t.children[..k] + t.children[k + 1..]);
            KillsRight(t, x, Removed(t', Size(t.children[k])), [t.name] + Forest(t.children[..k]) + [x])
  {
    CutInChild(t, x, k);
  }

  lemma KillsBelow(t: Service, x: string, k: nat, reply: KillReply, received: seq<string>)
    requires t.name != x && k < |t.children| && x !in Forest(t.children[..k]) && t.children[k].name != x
    requires reply.Removed? && KillsRight(t.children[k], x, reply, received)
    ensures KillsRight(t, x, Removed(t.(children := t.children[k := reply.self]), reply.killed),
                       [t.name] + Forest(t.children[..k]) + received)
  {
    CutInChild(t, x, k);
  }

  /** Lines 333-376. */
  method Kill(self: Service, target: string) returns (reply: KillReply, received: seq<string>)
    ensures KillsRight(self, target, reply, received)
    decreases self
  {
    received := [self.name];
    if self.name == target {
      var n := Suicide(self);
      return Died(n), received;
    }
    var i := 0;
    while i < |self.children|
      invariant 0 <= i <= |self.children|
      invariant target !in Forest(self.children[..i])
      invariant received == [self.name] + Forest(self.children[..i])
    {
      var child := self.children[i];
      if child.name == target {
        KillsChild(self, target, i);
        var n := Suicide(child);
        var rest := RemoveChild(self.children, i);
        return Removed(self.(children := rest), n), received + [target];
      }
      var answer, more := Kill(child, target);
      if answer.Removed? {
        KillsBelow(self, target, i, answer, more);
        return Removed(self.(children := self.children[i := answer.self]), answer.killed), received + more;
      }
      received := received + more;
      UpToMissing(Preorder(child), target);
      ForestSnoc(self.children, i);
      i := i + 1;
    }
    assert self.children[..i] == self.children;
    FoundNowhere(self, target);
    reply := Failed;
  }

  // ---------------------------------------------------------------------------------------------
  // The counting traversal of exchange

  /** A walk over names that stops at the second one that is a or b. */
  datatype Walk = Walk(received: seq<string>, count: nat, stopped: bool)

  function Walking(names: seq<string>, a: string, b: string, count: nat): Walk {
    if names == [] then Walk([], count, false)
    else
      var c := if names[0] == a || names[0] == b then count + 1 else count;
      if c == 2 then Walk([names[0]], c, true)
      else
        var rest := Walking(names[1..], a, b, c);
        rest.(received := [names[0]] + rest.received)
  }

  lemma {:induction false} WalkingConcat(names: seq<string>, more: seq<string>, a: string, b: string, count: nat)
    ensures var w := Walking(names, a, b, count);
            Walking(names + more, a, b, count) ==
            if w.stopped then w
            else var v := Walking(more, a, b, w.count); v.(received := w.received + v.received)
  {
    if names == [] {
      assert names + more == more;
    } else {
      var c := if names[0] == a || names[0] == b then count + 1 else count;
      var w := Walking(names[1..], a, b, c);
      assert (names + more)[0] == names[0] && (names + more)[1..] == names[1..] + more;
      WalkingConcat(names[1..], more, a, b, c);
      Assoc([names[0]], w.received, Walking(more, a, b, w.count).received);
    }
  }

  /** The walk over a service and its first i children. */
  function WalkPart(t: Service, i: nat, a: string, b: string, count: nat): Walk
    requires i <= |t.children|
  {
    Walking([t.name] + Forest(t.children[..i]), a, b, count)
  }

  lemma WalkNextChild(t: Service, i: nat, a: string, b: string, count: nat)
    requires i < |t.children| && !WalkPart(t, i, a, b, count).stopped
    ensures var w := WalkPart(t, i, a, b, count);
            var reply := Walking(Preorder(t.children[i]), a, b, w.count);
            WalkPart(t, i + 1, a, b, count) == reply.(received := w.received + reply.received)
    ensures var w := WalkPart(t, i + 1, a, b, count);
            w.stopped ==> w == Walking(Preorder(t), a, b, count)
  {
    var passed, inside := [t.name] + Forest(t.children[..i]), Preorder(t.children[i]);
    var rest := Forest(t.children[i + 1..]);
    WalkingConcat(passed, inside, a, b, count);
    ForestSnoc(t.children, i);
    Assoc([t.name], Forest(t.children[..i]), inside);
    ForestAround(t.children, i);
    assert Preorder(t) == (passed + inside) + rest;
    WalkingConcat(passed + inside, rest, a, b, count);
  }

  /** Lines 150-182: walk the subtree, carrying the count through the children and back to the parent. */
  method Traverse(self: Service, a: string, b: string, count: nat) returns (walk: Walk)
    ensures walk == Walking(Preorder(self), a, b, count)
    decreases self
  {
    var c := if self.name == a || self.name == b then count + 1 else count;
    walk := Walk([self.name], c, c == 2);
    WalkingConcat([self.name], Forest(self.children), a, b, count);
    assert [self.name] + Forest([]) == [self.name];
    var i := 0;
    while i < |self.children| && !walk.stopped
      invariant 0 <= i <= |self.children|
      invariant walk == WalkPart(self, i, a, b, count)
      invariant walk.stopped ==> walk == Walking(Preorder(self), a, b, count)
      decreases |self.children| - i, !walk.stopped
    {
      var reply := Traverse(self.children[i], a, b, walk.count);
      WalkNextChild(self, i, a, b, count);
      walk := reply.(received := walk.received + reply.received);
      i := i + 1;
    }
    if !walk.stopped {
      assert self.children[..i] == self.children;
    }
  }

  /** With two different names that both occur, the walk ends at the later of their first occurrences. */
  lemma {:induction false} WalkEndsAtSecond(names: seq<string>, a: string, b: string)
    requires a != b && a in names && b in names
    requires forall i, j :: 0 <= i < j < |names| ==> names[i] != names[j]
    ensures Walking(names, a, b, 0).received ==
            if |UpTo(names, a)| >= |UpTo(names, b)| then UpTo(names, a) else UpTo(names, b)
  {
    if names[0] == a {
      WalkEndsAt(names[1..], b, a);
    } else if names[0] == b {
      WalkEndsAt(names[1..], a, b);
    } else {
      WalkEndsAtSecond(names[1..], a, b);
    }
  }

  lemma {:induction false} WalkEndsAt(names: seq<string>, x: string, other: string)
    requires other !in names
    ensures Walking(names, x, other, 1).received == Walking(names, other, x, 1).received == UpTo(names, x)
    ensures Walking(names, x, other, 1).stopped <==> x in names
  {
    if names != [] {
      WalkEndsAt(names[1..], x, other);
    }
  }

  // ---------------------------------------------------------------------------------------------
  // Finding a route

  /** Every service on the way to p has its register for `index` pointing to the next service on the way. */
  function Marked(t: Service, p: Path, index: nat): Service
    requires IsPath(t, p)
    decreases |p|
  {
    if p == [] then t
    else t.(regs := Routed(t.regs, index, p[0]),
            children := t.children[p[0] := Marked(t.children[p[0]], p[1..], index)])
  }

  /** Lines 184-223. */
  method Finds(self: Service, target: string, index: nat) returns (self': Service, found: bool)
    ensures found <==> target in Preorder(self)
    ensures self' == if found then Marked(self, Locate(self, target), index) else self
    decreases self
  {
    if self.name == target {
      return self, true;
    }
    var i := 0;
    while i < |self.children|
      invariant 0 <= i <= |self.children|
      invariant target !in Forest(self.children[..i])
    {
      var child', reply := Finds(self.children[i], target, index);
      if reply {
        FoundInChild(self, target, i);
        return self.(regs := Routed(self.regs, index, i), children := self.children[i := child']), true;
      }
      ForestSnoc(self.children, i);
      i := i + 1;
    }
    assert self.children[..i] == self.children;
    return self, false;
  }
}
