/**
 The tree of services of HW2 and the vocabulary for talking about it: preorder, paths, and the
 changes the commands make at one place of the tree.

 A service owns its name, its secret, its routing registers and its array of children. Services are
 processes without shared memory, so a tree of values holds everything there is. A file descriptor
 of a child is represented by the child's index in the array, an unset register by -1.
 */
module ServiceTree {

  /** pipe_read[0], pipe_write[0], pipe_read[1], pipe_write[1]. */
  datatype Regs = Regs(read0: int, write0: int, read1: int, write1: int)

  const UNSET := Regs(-1, -1, -1, -1)

  /** Lines 207-208: both ends of the route for target `index` (0 or 1) lead to child k. */
  function Routed(regs: Regs, index: nat, k: int): Regs {
    if index == 0 then regs.(read0 := k, write0 := k) else regs.(read1 := k, write1 := k)
  }

  datatype Service = Service(name: string, secret: nat, regs: Regs, children: seq<Service>)

  // ---------------------------------------------------------------------------------------------
  // Preorder

  /** The names of all services, every parent before its children and children in array order. */
  function Preorder(t: Service): (names: seq<string>)
    ensures names != [] && names[0] == t.name
    decreases t, 1
  {
    [t.name] + Forest(t.children)
  }

  function Forest(ts: seq<Service>): seq<string>
    decreases ts, 0
  {
    if ts == [] then [] else Preorder(ts[0]) + Forest(ts[1..])
  }

  lemma {:induction false} ForestConcat(ts: seq<Service>, us: seq<Service>)
    ensures Forest(ts + us) == Forest(ts) + Forest(us)
  {
    if ts == [] {
      assert ts + us == us;
    } else {
      assert (ts + us)[0] == ts[0] && (ts + us)[1..] == ts[1..] + us;
      ForestConcat(ts[1..], us);
    }
  }

  lemma Assoc(a: seq<string>, b: seq<string>, c: seq<string>)
    ensures (a + b) + c == a + (b + c)
  {
  }

  lemma ForestHead(ts: seq<Service>, k: nat)
    requires k < |ts|
    ensures Forest(ts[k..]) == Preorder(ts[k]) + Forest(ts[k + 1..])
  {
    assert ts[k..][0] == ts[k] && ts[k..][1..] == ts[k + 1..];
  }

  lemma ForestSnoc(ts: seq<Service>, k: nat)
    requires k < |ts|
    ensures Forest(ts[..k + 1]) == Forest(ts[..k]) + Preorder(ts[k])
  {
    ForestConcat(ts[..k], [ts[k]]);
    assert ts[..k + 1] == ts[..k] + [ts[k]];
    assert [ts[k]][1..] == [];
  }

  /** The forest around child k. */
  lemma ForestAround(ts: seq<Service>, k: nat)
    requires k < |ts|
    ensures Forest(ts) == Forest(ts[..k]) + Preorder(ts[k]) + Forest(ts[k + 1..])
  {
    assert Forest(ts) == Forest(ts[..k]) + Forest(ts[k..]) by {
      assert ts == ts[..k] + ts[k..];
      ForestConcat(ts[..k], ts[k..]);
    }
    ForestHead(ts, k);
    Assoc(Forest(ts[..k]), Preorder(ts[k]), Forest(ts[k + 1..]));
  }

  function Size(t: Service): nat {
    |Preorder(t)|
  }

  // ---------------------------------------------------------------------------------------------
  // Paths

  /** The child indices leading from the root of a tree to a service in it. */
  type Path = seq<nat>

  predicate IsPath(t: Service, p: Path)
    decreases |p|
  {
    p == [] || (p[0] < |t.children| && IsPath(t.children[p[0]], p[1..]))
  }

  /** The service at the end of a path, with everything below it. */
  function At(t: Service, p: Path): Service
    requires IsPath(t, p)
    decreases |p|
  {
    if p == [] then t else At(t.children[p[0]], p[1..])
  }

  /** The tree with the subtree at p replaced by u. */
  function Put(t: Service, p: Path, u: Service): Service
    requires IsPath(t, p)
    decreases |p|
  {
    if p == [] then u else t.(children := t.children[p[0] := Put(t.children[p[0]], p[1..], u)])
  }

  /** The tree without the subtree at p. */
  function Cut(t: Service, p: Path): Service
    requires IsPath(t, p) && p != []
    decreases |p|
  {
    if |p| == 1 then t.(children := t.children[..p[0]] + t.children[p[0] + 1..])
    else t.(children := t.children[p[0] := Cut(t.children[p[0]], p[1..])])
  }

  /** The services visited before the one at p, and those visited after its whole subtree. */
  function Before(t: Service, p: Path): seq<string>
    requires IsPath(t, p)
    decreases |p|
  {
    if p == [] then [] else [t.name] + Forest(t.children[..p[0]]) + Before(t.children[p[0]], p[1..])
  }

  function After(t: Service, p: Path): seq<string>
    requires IsPath(t, p)
    decreases |p|
  {
    if p == [] then [] else After(t.children[p[0]], p[1..]) + Forest(t.children[p[0] + 1..])
  }

  /** Replacing a subtree changes the preorder in just that place. */
  lemma {:induction false} PreorderOfPut(t: Service, p: Path, u: Service)
    requires IsPath(t, p)
    ensures Preorder(Put(t, p, u)) == Before(t, p) + Preorder(u) + After(t, p)
    decreases |p|
  {
    if p != [] {
      var k := p[0];
      var cs := Put(t, p, u).children;
      PreorderOfPut(t.children[k], p[1..], u);
      ForestAround(cs, k);
      assert cs[..k] == t.children[..k] && cs[k + 1..] == t.children[k + 1..];
      Nested([t.name], Forest(cs[..k]), Before(t.children[k], p[1..]), Preorder(u),
             After(t.children[k], p[1..]), Forest(cs[k + 1..]));
    }
  }

  lemma Nested(a: seq<string>, b: seq<string>, c: seq<string>, d: seq<string>, e: seq<string>, f: seq<string>)
    ensures a + (b + (c + d + e) + f) == (a + b + c) + d + (e + f)
  {
  }

  lemma NestedGap(a: seq<string>, b: seq<string>, c: seq<string>, e: seq<string>, f: seq<string>)
    ensures a + (b + (c + e) + f) == (a + b + c) + (e + f)
  {
  }

  lemma {:induction false} PutBack(t: Service, p: Path)
    requires IsPath(t, p)
    ensures Put(t, p, At(t, p)) == t
    ensures Preorder(t) == Before(t, p) + Preorder(At(t, p)) + After(t, p)
    decreases |p|
  {
    if p != [] {
      PutBack(t.children[p[0]], p[1..]);
      assert t.children[p[0] := t.children[p[0]]] == t.children;
    }
    PreorderOfPut(t, p, At(t, p));
  }

  /** Cutting a subtree removes exactly its part of the preorder. */
  lemma {:induction false} PreorderOfCut(t: Service, p: Path)
    requires IsPath(t, p) && p != []
    ensures Preorder(Cut(t, p)) == Before(t, p) + After(t, p)
    decreases |p|
  {
    var k := p[0];
    if |p| == 1 {
      ForestConcat(t.children[..k], t.children[k + 1..]);
      assert p[1..] == [];
      Assoc([t.name], Forest(t.children[..k]), Forest(t.children[k + 1..]));
    } else {
      var cs := Cut(t, p).children;
      PreorderOfCut(t.children[k], p[1..]);
      ForestAround(cs, k);
      assert cs[..k] == t.children[..k] && cs[k + 1..] == t.children[k + 1..];
      NestedGap([t.name], Forest(cs[..k]), Before(t.children[k], p[1..]),
                After(t.children[k], p[1..]), Forest(cs[k + 1..]));
    }
  }

  // ---------------------------------------------------------------------------------------------
  // The first service with a given name

  /** The first child whose subtree has the name. */
  function FirstIn(ts: seq<Service>, x: string): (k: nat)
    requires x in Forest(ts)
    ensures k < |ts| && x in Preorder(ts[k])
  {
    if x in Preorder(ts[0]) then 0 else 1 + FirstIn(ts[1..], x)
  }

  lemma {:induction false} FirstInIs(ts: seq<Service>, x: string, k: nat)
    requires k < |ts| && x !in Forest(ts[..k]) && x in Preorder(ts[k])
    ensures x in Forest(ts) && FirstIn(ts, x) == k
  {
    ForestAround(ts, k);
    if k > 0 {
      assert ts[..k][0] == ts[0] && ts[..k][1..] == ts[1..][..k - 1];
      FirstInIs(ts[1..], x, k - 1);
    }
  }

  lemma {:induction false} FirstInMisses(ts: seq<Service>, x: string)
    requires x in Forest(ts)
    ensures x !in Forest(ts[..FirstIn(ts, x)])
  {
    if x !in Preorder(ts[0]) {
      FirstInMisses(ts[1..], x);
      var k := FirstIn(ts, x);
      assert ts[..k][0] == ts[0] && ts[..k][1..] == ts[1..][..k - 1];
    }
  }

  /** The path to the first service in preorder with the name. */
  function Locate(t: Service, x: string): (p: Path)
    requires x in Preorder(t)
    ensures IsPath(t, p) && At(t, p).name == x
    decreases t
  {
    if t.name == x then []
    else
      var k := FirstIn(t.children, x);
      [k] + Locate(t.children[k], x)
  }

  /** It is indeed the first one. */
  lemma {:induction false} LocateIsFirst(t: Service, x: string)
    requires x in Preorder(t)
    ensures x !in Before(t, Locate(t, x))
    decreases t
  {
    if t.name != x {
      var k := FirstIn(t.children, x);
      FirstInMisses(t.children, x);
      LocateIsFirst(t.children[k], x);
    }
  }

  // ---------------------------------------------------------------------------------------------
  // Prefixes of the preorder

  /** The names up to and including the first x, or all of them. */
  function UpTo(names: seq<string>, x: string): seq<string> {
    if names == [] then [] else if names[0] == x then [x] else [names[0]] + UpTo(names[1..], x)
  }

  lemma {:induction false} UpToConcat(names: seq<string>, more: seq<string>, x: string)
    ensures UpTo(names + more, x) == if x in names then UpTo(names, x) else names + UpTo(more, x)
  {
    if names == [] {
      assert names + more == more;
    } else {
      assert (names + more)[0] == names[0] && (names + more)[1..] == names[1..] + more;
      if names[0] != x {
        UpToConcat(names[1..], more, x);
        assert names == [names[0]] + names[1..];
        Assoc([names[0]], names[1..], UpTo(more, x));
      }
    }
  }

  lemma {:induction false} UpToMissing(names: seq<string>, x: string)
    requires x !in names
    ensures UpTo(names, x) == names
  {
    if names != [] {
      UpToMissing(names[1..], x);
    }
  }

  /** The prefix up to a name is what lies before the first service of that name, and that service. */
  lemma UpToIsBefore(t: Service, x: string)
    requires x in Preorder(t)
    ensures UpTo(Preorder(t), x) == Before(t, Locate(t, x)) + [x]
  {
    var p := Locate(t, x);
    LocateIsFirst(t, x);
    PutBack(t, p);
    var rest := Preorder(At(t, p)) + After(t, p);
    Assoc(Before(t, p), Preorder(At(t, p)), After(t, p));
    UpToConcat(Before(t, p), rest, x);
    assert rest[0] == x;
    assert UpTo(rest, x) == [x];
  }
}
