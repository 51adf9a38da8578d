/**
 The bulletin board: any number of server processes share one file of N records. Each server keeps a
 table of the slots it has granted; between servers a slot is protected by a record lock of the file.
 The circular search of `!post` takes and releases the record lock of the slot it finds, and the
 handler then takes it again without looking at the result. The two are separate steps here, so that
 the steps of other servers can fall in between.
 */
module BulletinBoard {

  datatype Record = Record(from: string, content: string)

  /** A slot promised to a client whose record has not arrived yet. */
  datatype Grant = Grant(server: nat, client: nat, slot: nat)

  datatype Phase = Idle | Found(client: nat, slot: nat)

  datatype Server = Server(locked: seq<bool>, last: nat, phase: Phase)

  /** The record lock of slot i is held by process `holder[i]`, or by nobody. */
  datatype State = State(board: seq<Record>, holder: seq<int>, servers: seq<Server>, grants: seq<Grant>)

  const FREE: int := -1

  // ---------------------------------------------------------------------------------------------
  // Record locks: a process never conflicts with itself

  predicate Grantable(holder: seq<int>, p: nat, i: nat)
    requires i < |holder|
  {
    holder[i] == FREE || holder[i] == p
  }

  function WriteLocked(holder: seq<int>, p: nat, i: nat): seq<int>
    requires i < |holder|
  {
    if Grantable(holder, p, i) then holder[i := p] else holder
  }

  function Unlocked(holder: seq<int>, p: nat, i: nat): seq<int>
    requires i < |holder|
  {
    if holder[i] == p then holder[i := FREE] else holder
  }

  // ---------------------------------------------------------------------------------------------
  // The circular search

  /** A slot that process p passes over. */
  predicate Blocked(locked: seq<bool>, holder: seq<int>, p: nat, i: nat)
    requires i < |locked| == |holder|
  {
    locked[i] || !Grantable(holder, p, i)
  }

  /** The slot d places behind the one after `last`. */
  function Slot(last: nat, d: nat, n: nat): (i: nat)
    requires n > 0
    ensures i < n
  {
    (last + 1 + d) % n
  }

  function Search(locked: seq<bool>, holder: seq<int>, p: nat, last: nat, d: nat): (r: int)
    requires 0 < |locked| == |holder| && d <= |locked|
    ensures -1 <= r < |locked|
    ensures r >= 0 ==> !Blocked(locked, holder, p, r)
    decreases |locked| - d
  {
    if d == |locked| then -1
    else if Blocked(locked, holder, p, Slot(last, d, |locked|)) then Search(locked, holder, p, last, d + 1)
    else Slot(last, d, |locked|)
  }

  lemma RemainderIs(x: nat, n: nat, q: int, r: nat)
    requires r < n && x == q * n + r
    ensures x % n == r
  {
    var d := q - x / n;
    assert d >= 1 ==> d * n >= n;
    assert d <= -1 ==> d * n <= 0 - n;
    assert d * n == x % n - r;
  }

  lemma NextIndex(m: nat, n: nat)
    requires n > 0
    ensures (m % n + 1) % n == (m + 1) % n
  {
    var q, r := m / n, m % n;
    if r + 1 < n {
      RemainderIs(m + 1, n, q, r + 1);
      RemainderIs(r + 1, n, 0, r + 1);
    } else {
      assert (q + 1) * n == q * n + n;
      RemainderIs(m + 1, n, q + 1, 0);
      RemainderIs(n, n, 1, 0);
    }
  }

  lemma SlotForm(last: nat, d: nat, n: nat)
    requires last < n && d < n
    ensures Slot(last, d, n) == if last + 1 + d < n then last + 1 + d else last + 1 + d - n
  {
    if last + 1 + d < n {
      RemainderIs(last + 1 + d, n, 0, last + 1 + d);
    } else {
      RemainderIs(last + 1 + d, n, 1, last + 1 + d - n);
    }
  }

  lemma NextSlot(last: nat, d: nat, n: nat)
    requires n > 0
    ensures Slot(last, d + 1, n) == (Slot(last, d, n) + 1) % n
  {
    NextIndex(last + 1 + d, n);
  }

  /** The search meets every slot. */
  lemma SlotReaches(last: nat, i: nat, n: nat) returns (d: nat)
    requires last < n && i < n
    ensures d < n && Slot(last, d, n) == i
  {
    d := if i > last then i - last - 1 else i + n - last - 1;
    SlotForm(last, d, n);
  }

  /** The search yields the first slot behind `last` that is not blocked ... */
  lemma {:induction false} SearchIsFirst(locked: seq<bool>, holder: seq<int>, p: nat, last: nat, from: nat)
    returns (d: nat)
    requires 0 < |locked| == |holder| && from <= |locked|
    ensures from <= d <= |locked|
    ensures forall e :: from <= e < d ==> Blocked(locked, holder, p, Slot(last, e, |locked|))
    ensures Search(locked, holder, p, last, from) == if d == |locked| then -1 else Slot(last, d, |locked|)
    decreases |locked| - from
  {
    if from == |locked| || !Blocked(locked, holder, p, Slot(last, from, |locked|)) {
      d := from;
    } else {
      d := SearchIsFirst(locked, holder, p, last, from + 1);
    }
  }

  /** ... and -1 exactly when all slots are. */
  lemma SearchFailsWhenAllBlocked(locked: seq<bool>, holder: seq<int>, p: nat, last: nat)
    requires last < |locked| == |holder|
    ensures Search(locked, holder, p, last, 0) == -1
            <==> forall i :: 0 <= i < |locked| ==> Blocked(locked, holder, p, i)
  {
    if Search(locked, holder, p, last, 0) == -1 {
      var d := SearchIsFirst(locked, holder, p, last, 0);
      forall i | 0 <= i < |locked| ensures Blocked(locked, holder, p, i) {
        var e := SlotReaches(last, i, |locked|);
      }
    }
  }

  // ---------------------------------------------------------------------------------------------
  // Steps

  datatype Move =
    | Probe(p: nat, client: nat)
    | Take(p: nat)
    | Finish(p: nat, k: nat, record: Record)
    | Pull(p: nat)

  predicate WellFormed(s: State) {
    && 0 < |s.board| == |s.holder|
    && (forall p :: 0 <= p < |s.servers| ==>
          var v := s.servers[p];
          |v.locked| == |s.board| && v.last < |s.board| && (v.phase.Found? ==> v.phase.slot < |s.board|))
    && (forall k :: 0 <= k < |s.grants| ==> s.grants[k].server < |s.servers| && s.grants[k].slot < |s.board|)
  }

  predicate Initial(s: State) {
    && WellFormed(s) && s.grants == []
    && (forall i :: 0 <= i < |s.holder| ==> s.holder[i] == FREE)
    && forall p :: 0 <= p < |s.servers| ==>
         var v := s.servers[p];
         v.phase == Idle && v.last == |s.board| - 1 && forall i :: 0 <= i < |v.locked| ==> !v.locked[i]
  }

  /** A client finishes only what it was granted, and names the slot it was given. */
  predicate Enabled(s: State, m: Move) {
    && m.p < |s.servers|
    && (m.Take? <==> s.servers[m.p].phase.Found?)
    && (m.Finish? ==> m.k < |s.grants| && s.grants[m.k].server == m.p)
  }

  /** After `!pull`, which takes and releases the lock of every slot it is not kept from. */
  function AfterPull(locked: seq<bool>, holder: seq<int>, p: nat): seq<int>
    requires |locked| == |holder|
  {
    seq(|holder|, i requires 0 <= i < |holder| => if Blocked(locked, holder, p, i) then holder[i] else FREE)
  }

  function Next(s: State, m: Move): State
    requires WellFormed(s) && Enabled(s, m)
  {
    var v := s.servers[m.p];
    match m
    case Probe(p, client) =>
      var r := Search(v.locked, s.holder, p, v.last, 0);
      if r == -1 then s
      else s.(holder := Unlocked(WriteLocked(s.holder, p, r), p, r),
              servers := s.servers[p := v.(phase := Found(client, r))])
    case Take(p) =>
      var i := v.phase.slot;
      s.(holder := WriteLocked(s.holder, p, i),
         servers := s.servers[p := Server(v.locked[i := true], i, Idle)],
         grants := s.grants + [Grant(p, v.phase.client, i)])
    case Finish(p, k, record) =>
      var i := s.grants[k].slot;
      State(s.board[i := record],
            Unlocked(s.holder, p, i),
            s.servers[p := v.(locked := v.locked[i := false])],
            s.grants[..k] + s.grants[k + 1..])
    case Pull(p) =>
      s.(holder := AfterPull(v.locked, s.holder, p))
  }

  lemma NextIsWellFormed(s: State, m: Move)
    requires WellFormed(s) && Enabled(s, m)
    ensures WellFormed(Next(s, m))
  {
  }

  /** A whole `!post` request. */
  function AfterPost(s: State, p: nat, client: nat): State
    requires WellFormed(s) && p < |s.servers| && s.servers[p].phase.Idle?
  {
    var s1 := Next(s, Probe(p, client));
    NextIsWellFormed(s, Probe(p, client));
    if s1.servers[p].phase.Found? then Next(s1, Take(p)) else s1
  }

  /** The unchecked record lock of `!post` succeeds. */
  predicate Succeeds(s: State, m: Move)
    requires WellFormed(s) && Enabled(s, m)
  {
    m.Take? ==> Grantable(s.holder, m.p, s.servers[m.p].phase.slot)
  }

  ghost predicate IsRun(states: seq<State>, moves: seq<Move>) {
    && |states| == |moves| + 1
    && Initial(states[0])
    && forall j :: 0 <= j < |moves| ==>
         WellFormed(states[j]) && Enabled(states[j], moves[j]) && states[j + 1] == Next(states[j], moves[j])
  }

  // ---------------------------------------------------------------------------------------------
  // What every step keeps, however the servers interleave

  predicate Granted(grants: seq<Grant>, p: nat, i: nat) {
    exists k :: 0 <= k < |grants| && grants[k].server == p && grants[k].slot == i
  }

  /** A server's table marks exactly the slots it has granted. */
  predicate TableInv(s: State)
    requires WellFormed(s)
  {
    forall p, i :: 0 <= p < |s.servers| && 0 <= i < |s.board| ==> (s.servers[p].locked[i] <==> Granted(s.grants, p, i))
  }

  /** No server grants a slot twice. */
  predicate OwnGrantsDiffer(grants: seq<Grant>) {
    forall j, k :: 0 <= j < k < |grants| && grants[j].server == grants[k].server ==> grants[j].slot != grants[k].slot
  }

  /** Record locks are held only by servers that have granted the slot. */
  predicate HolderInv(s: State)
    requires WellFormed(s)
  {
    forall i :: 0 <= i < |s.holder| ==>
                  s.holder[i] == FREE || (0 <= s.holder[i] < |s.servers| && s.servers[s.holder[i]].locked[i])
  }

  predicate FoundInv(s: State)
    requires WellFormed(s)
  {
    forall p :: 0 <= p < |s.servers| && s.servers[p].phase.Found? ==>
                  !s.servers[p].locked[s.servers[p].phase.slot]
  }

  ghost predicate Inv(s: State) {
    WellFormed(s) && TableInv(s) && OwnGrantsDiffer(s.grants) && HolderInv(s) && FoundInv(s)
  }

  /** Probing takes and gives back: no record lock changes hands. */
  lemma ProbeReleasesNothing(s: State, m: Move)
    requires Inv(s) && Enabled(s, m) && m.Probe?
    ensures Next(s, m).holder == s.holder
  {
  }

  lemma PullReleasesNothing(s: State, m: Move)
    requires Inv(s) && Enabled(s, m) && m.Pull?
    ensures Next(s, m) == s
  {
    assert AfterPull(s.servers[m.p].locked, s.holder, m.p) == s.holder;
  }

  /** The other grants stay, in their order. */
  lemma Remaining(grants: seq<Grant>, k: nat)
    requires k < |grants|
    ensures var rest := grants[..k] + grants[k + 1..];
            && |rest| == |grants| - 1
            && forall j :: 0 <= j < |rest| ==> rest[j] == grants[if j < k then j else j + 1]
  {
  }

  lemma GrantedAfterFinish(grants: seq<Grant>, k: nat, p: nat, i: nat)
    requires OwnGrantsDiffer(grants) && k < |grants|
    ensures Granted(grants[..k] + grants[k + 1..], p, i)
            <==> Granted(grants, p, i) && !(grants[k].server == p && grants[k].slot == i)
  {
    var rest := grants[..k] + grants[k + 1..];
    if Granted(grants, p, i) && !(grants[k].server == p && grants[k].slot == i) {
      var j :| 0 <= j < |grants| && grants[j].server == p && grants[j].slot == i;
      assert rest[if j < k then j else j - 1] == grants[j];
    }
  }

  lemma GrantedAfterTake(grants: seq<Grant>, g: Grant, p: nat, i: nat)
    ensures Granted(grants + [g], p, i) <==> Granted(grants, p, i) || (g.server == p && g.slot == i)
  {
    if Granted(grants, p, i) {
      var j :| 0 <= j < |grants| && grants[j].server == p && grants[j].slot == i;
      assert (grants + [g])[j] == grants[j];
    }
    if g.server == p && g.slot == i {
      assert (grants + [g])[|grants|] == g;
    }
  }

  lemma FinishKeepsInv(s: State, m: Move)
    requires Inv(s) && Enabled(s, m) && m.Finish?
    ensures Inv(Next(s, m))
  {
    var s' := Next(s, m);
    Remaining(s.grants, m.k);
    forall p, i | 0 <= p < |s.servers| && 0 <= i < |s.board|
      ensures s'.servers[p].locked[i] <==> Granted(s'.grants, p, i)
    {
      GrantedAfterFinish(s.grants, m.k, p, i);
    }
  }

  lemma TakeKeepsInv(s: State, m: Move)
    requires Inv(s) && Enabled(s, m) && m.Take?
    ensures Inv(Next(s, m))
  {
    var s' := Next(s, m);
    var slot := s.servers[m.p].phase.slot;
    forall p, i | 0 <= p < |s.servers| && 0 <= i < |s.board|
      ensures s'.servers[p].locked[i] <==> Granted(s'.grants, p, i)
    {
      GrantedAfterTake(s.grants, Grant(m.p, s.servers[m.p].phase.client, slot), p, i);
    }
    assert !Granted(s.grants, m.p, slot);
  }

  lemma ProbeKeepsInv(s: State, m: Move)
    requires Inv(s) && Enabled(s, m) && m.Probe?
    ensures Inv(Next(s, m))
  {
    ProbeReleasesNothing(s, m);
    var s' := Next(s, m);
    assert s'.grants == s.grants;
    assert forall p :: 0 <= p < |s.servers| ==> s'.servers[p].locked == s.servers[p].locked;
  }

  lemma InvStep(s: State, m: Move)
    requires Inv(s) && Enabled(s, m)
    ensures Inv(Next(s, m))
  {
    match m
    case Probe(_, _) => ProbeKeepsInv(s, m);
    case Take(_) => TakeKeepsInv(s, m);
    case Finish(_, _, _) => FinishKeepsInv(s, m);
    case Pull(_) => PullReleasesNothing(s, m);
  }

  /** So it holds in every state of every run. */
  lemma {:induction false} InvAlongRun(states: seq<State>, moves: seq<Move>, j: nat)
    requires IsRun(states, moves) && j < |states|
    ensures Inv(states[j])
  {
    if j > 0 {
      InvAlongRun(states, moves, j - 1);
      InvStep(states[j - 1], moves[j - 1]);
    }
  }

  /**
   A server's table marks a slot exactly when exactly one of its grants of the slot is unfinished, in
   every run and at every interleaving with other servers.
   */
  lemma LockedMeansOneGrant(states: seq<State>, moves: seq<Move>, j: nat, p: nat, i: nat)
    requires IsRun(states, moves) && j < |states| && p < |states[j].servers| && i < |states[j].servers[p].locked|
    ensures var grants := states[j].grants;
            states[j].servers[p].locked[i] <==>
            exists k :: 0 <= k < |grants| && grants[k].server == p && grants[k].slot == i
                        && forall l :: 0 <= l < |grants| && grants[l].server == p && grants[l].slot == i ==> l == k
  {
    InvAlongRun(states, moves, j);
    var s := states[j];
    if s.servers[p].locked[i] {
      assert Granted(s.grants, p, i);
      var k :| 0 <= k < |s.grants| && s.grants[k].server == p && s.grants[k].slot == i;
      assert forall l :: 0 <= l < |s.grants| && s.grants[l].server == p && s.grants[l].slot == i ==> l == k;
    }
  }

  // ---------------------------------------------------------------------------------------------
  // What is on the board

  /** The move is the end of a post to slot i. */
  predicate FinishesSlot(s: State, m: Move, i: nat)
    requires Enabled(s, m)
  {
    m.Finish? && s.grants[m.k].slot == i
  }

  /** The move is the grant of a slot by server p. */
  predicate GrantsBy(m: Move, p: nat) {
    m.Take? && m.p == p
  }

  /** A finish writes its record to the slot that was granted, and no move writes anything else. */
  lemma FinishWritesItsSlot(s: State, m: Move, i: nat)
    requires WellFormed(s) && Enabled(s, m) && i < |s.board|
    ensures |Next(s, m).board| == |s.board|
    ensures Next(s, m).board[i] == if FinishesSlot(s, m, i) then m.record else s.board[i]
  {
  }

  /** Move number l is the last of the first j that ends a post to slot i. */
  ghost predicate LastFinish(states: seq<State>, moves: seq<Move>, i: nat, l: int, j: nat)
    requires IsRun(states, moves) && j <= |moves|
  {
    && 0 <= l < j && FinishesSlot(states[l], moves[l], i)
    && forall e :: l < e < j ==> !FinishesSlot(states[e], moves[e], i)
  }

  /**
   In every run, whatever servers and clients do: a slot has the record of the last post to it that
   was finished, or what it had at the beginning if there was none.
   */
  lemma {:induction false} BoardHasLastFinished(states: seq<State>, moves: seq<Move>, i: nat, j: nat)
    requires IsRun(states, moves) && j <= |moves| && i < |states[0].board|
    ensures i < |states[j].board|
    ensures (exists l :: LastFinish(states, moves, i, l, j) && states[j].board[i] == moves[l].record)
            || (states[j].board[i] == states[0].board[i]
                && forall e :: 0 <= e < j ==> !FinishesSlot(states[e], moves[e], i))
  {
    if j > 0 {
      BoardHasLastFinished(states, moves, i, j - 1);
      FinishWritesItsSlot(states[j - 1], moves[j - 1], i);
      if FinishesSlot(states[j - 1], moves[j - 1], i) {
        assert LastFinish(states, moves, i, j - 1, j);
      } else if l :| LastFinish(states, moves, i, l, j - 1) && states[j - 1].board[i] == moves[l].record {
        assert LastFinish(states, moves, i, l, j);
      }
    }
  }

  /** Only its own grants move a server's `last`, and to the slot granted. */
  lemma LastFollowsGrants(s: State, m: Move, p: nat)
    requires WellFormed(s) && Enabled(s, m) && p < |s.servers|
    ensures |Next(s, m).servers| == |s.servers|
    ensures Next(s, m).servers[p].last == if GrantsBy(m, p) then s.servers[p].phase.slot else s.servers[p].last
    ensures GrantsBy(m, p) ==>
              var found := s.servers[p].phase;
              Next(s, m).grants == s.grants + [Grant(p, found.client, found.slot)]
  {
  }

  /** Move number l is the last grant by server p among the first j, and `last` is the slot it granted. */
  ghost predicate LastGrant(states: seq<State>, moves: seq<Move>, p: nat, l: int, j: nat, last: nat)
    requires IsRun(states, moves) && j <= |moves|
  {
    && 0 <= l < j && GrantsBy(moves[l], p) && states[l].servers[p].phase.slot == last
    && forall e :: l < e < j ==> !GrantsBy(moves[e], p)
  }

  /** `last` is the slot that server p granted last, or the last slot of all if it has granted none. */
  ghost predicate IsPrevious(states: seq<State>, moves: seq<Move>, p: nat, j: nat, last: nat)
    requires IsRun(states, moves) && j <= |moves|
  {
    || (exists l :: LastGrant(states, moves, p, l, j, last))
    || (last == |states[0].board| - 1 && forall e :: 0 <= e < j ==> !GrantsBy(moves[e], p))
  }

  lemma PreviousAfterGrant(states: seq<State>, moves: seq<Move>, p: nat, j: nat)
    requires IsRun(states, moves) && j < |moves| && GrantsBy(moves[j], p)
    ensures IsPrevious(states, moves, p, j + 1, states[j].servers[p].phase.slot)
  {
    assert LastGrant(states, moves, p, j, j + 1, states[j].servers[p].phase.slot);
  }

  lemma PreviousAfterOther(states: seq<State>, moves: seq<Move>, p: nat, j: nat, last: nat)
    requires IsRun(states, moves) && j < |moves| && !GrantsBy(moves[j], p) && IsPrevious(states, moves, p, j, last)
    ensures IsPrevious(states, moves, p, j + 1, last)
  {
    if l :| LastGrant(states, moves, p, l, j, last) {
      assert LastGrant(states, moves, p, l, j + 1, last);
    }
  }

  /** So it is with the variable `last` of every server, in every run. */
  lemma {:induction false} LastIsPreviousGrant(states: seq<State>, moves: seq<Move>, p: nat, j: nat)
    requires IsRun(states, moves) && j <= |moves| && p < |states[0].servers|
    ensures p < |states[j].servers| && IsPrevious(states, moves, p, j, states[j].servers[p].last)
  {
    if j > 0 {
      LastIsPreviousGrant(states, moves, p, j - 1);
      LastFollowsGrants(states[j - 1], moves[j - 1], p);
      if GrantsBy(moves[j - 1], p) {
        PreviousAfterGrant(states, moves, p, j - 1);
      } else {
        PreviousAfterOther(states, moves, p, j - 1, states[j - 1].servers[p].last);
      }
    }
  }

  // ---------------------------------------------------------------------------------------------
  // Between servers

  /** Every unfinished grant holds the record lock of its slot. */
  predicate Guarded(s: State)
    requires WellFormed(s)
  {
    forall k :: 0 <= k < |s.grants| ==> s.holder[s.grants[k].slot] == s.grants[k].server
  }

  /** No two unfinished grants, of whatever servers, share a slot. */
  predicate Exclusive(s: State) {
    forall j, k :: 0 <= j < k < |s.grants| ==> s.grants[j].slot != s.grants[k].slot
  }

  lemma GuardedTake(s: State, m: Move)
    requires Inv(s) && Enabled(s, m) && Guarded(s) && Succeeds(s, m) && m.Take?
    ensures WellFormed(Next(s, m)) && Guarded(Next(s, m))
  {
    NextIsWellFormed(s, m);
    var i := s.servers[m.p].phase.slot;
    assert !Granted(s.grants, m.p, i);
    assert forall k :: 0 <= k < |s.grants| && s.grants[k].slot == i ==> s.grants[k].server != m.p;
  }

  lemma GuardedFinish(s: State, m: Move)
    requires Inv(s) && Enabled(s, m) && Guarded(s) && m.Finish?
    ensures WellFormed(Next(s, m)) && Guarded(Next(s, m))
  {
    NextIsWellFormed(s, m);
    Remaining(s.grants, m.k);
  }

  lemma GuardedStep(s: State, m: Move)
    requires Inv(s) && Enabled(s, m) && Guarded(s) && Succeeds(s, m)
    ensures Inv(Next(s, m)) && Guarded(Next(s, m))
  {
    InvStep(s, m);
    match m
    case Probe(_, _) => ProbeReleasesNothing(s, m);
    case Take(_) => GuardedTake(s, m);
    case Finish(_, _, _) => GuardedFinish(s, m);
    case Pull(_) => PullReleasesNothing(s, m);
  }

  lemma {:induction false} GuardedAlongRun(states: seq<State>, moves: seq<Move>, j: nat)
    requires IsRun(states, moves) && j < |states|
    requires forall l :: 0 <= l < |moves| ==> Succeeds(states[l], moves[l])
    ensures Inv(states[j]) && Guarded(states[j]) && Exclusive(states[j])
  {
    if j > 0 {
      GuardedAlongRun(states, moves, j - 1);
      GuardedStep(states[j - 1], moves[j - 1]);
    }
  }

  /** The record lock that `!post` does not get belongs to a grant, which the new one then doubles. */
  lemma FailureShares(s: State, m: Move)
    requires Inv(s) && Enabled(s, m) && !Succeeds(s, m)
    ensures !Exclusive(Next(s, m))
  {
    var i := s.servers[m.p].phase.slot;
    assert Granted(s.grants, s.holder[i], i);
    var k :| 0 <= k < |s.grants| && s.grants[k].server == s.holder[i] && s.grants[k].slot == i;
    var s' := Next(s, m);
    assert s'.grants[k] == s.grants[k] && s'.grants[|s.grants|].slot == i;
  }

  /**
   Servers never share a slot in a run exactly when every record lock taken without a check succeeds.
   */
  lemma ExclusiveIffLocksSucceed(states: seq<State>, moves: seq<Move>)
    requires IsRun(states, moves)
    ensures (forall j :: 0 <= j < |states| ==> Exclusive(states[j]))
            <==> (forall j :: 0 <= j < |moves| ==> Succeeds(states[j], moves[j]))
  {
    if forall j :: 0 <= j < |moves| ==> Succeeds(states[j], moves[j]) {
      forall j | 0 <= j < |states| ensures Exclusive(states[j]) {
        GuardedAlongRun(states, moves, j);
      }
    } else {
      var j :| 0 <= j < |moves| && !Succeeds(states[j], moves[j]);
      InvAlongRun(states, moves, j);
      FailureShares(states[j], moves[j]);
      assert !Exclusive(states[j + 1]);
    }
  }

  /** Requests are served whole: a probe is followed at once by the locking of the slot it found. */
  predicate WholeRequests(moves: seq<Move>) {
    forall j :: 0 <= j < |moves| && moves[j].Take? ==> j > 0 && moves[j - 1].Probe? && moves[j - 1].p == moves[j].p
  }

  lemma WholeRequestsSucceed(states: seq<State>, moves: seq<Move>, j: nat)
    requires IsRun(states, moves) && WholeRequests(moves) && j < |moves|
    ensures Succeeds(states[j], moves[j])
  {
    if moves[j].Take? {
      InvAlongRun(states, moves, j - 1);
      ProbeReleasesNothing(states[j - 1], moves[j - 1]);
      assert states[j] == Next(states[j - 1], moves[j - 1]);
    }
  }

  /** Then no slot is shared, for any number of servers. */
  lemma WholeRequestsAreExclusive(states: seq<State>, moves: seq<Move>, j: nat)
    requires IsRun(states, moves) && WholeRequests(moves) && j < |states|
    ensures Inv(states[j]) && Guarded(states[j]) && Exclusive(states[j])
  {
    forall l | 0 <= l < |moves| ensures Succeeds(states[l], moves[l]) {
      WholeRequestsSucceed(states, moves, l);
    }
    GuardedAlongRun(states, moves, j);
  }

  lemma {:induction false} ServersStay(states: seq<State>, moves: seq<Move>, j: nat)
    requires IsRun(states, moves) && j < |states|
    ensures |states[j].servers| == |states[0].servers| && |states[j].board| == |states[0].board|
  {
    if j > 0 {
      ServersStay(states, moves, j - 1);
    }
  }

  /** Nor is one by a server that has the board for itself, at any interleaving of its clients. */
  lemma LoneServerIsExclusive(states: seq<State>, moves: seq<Move>, j: nat)
    requires IsRun(states, moves) && |states[0].servers| == 1 && j < |states|
    ensures Inv(states[j]) && Guarded(states[j]) && Exclusive(states[j])
  {
    forall l | 0 <= l < |moves| ensures Succeeds(states[l], moves[l]) {
      InvAlongRun(states, moves, l);
      ServersStay(states, moves, l);
    }
    GuardedAlongRun(states, moves, j);
  }

  /** The first probe of a server, on a board nobody has locked, finds slot 0. */
  lemma FirstProbe(s: State, p: nat, client: nat)
    requires WellFormed(s) && p < |s.servers| && s.servers[p].phase.Idle? && s.servers[p].last == |s.board| - 1
    requires !s.servers[p].locked[0] && s.holder[0] == FREE
    ensures Next(s, Probe(p, client)) == s.(servers := s.servers[p := s.servers[p].(phase := Found(client, 0))])
  {
    SlotForm(|s.board| - 1, 0, |s.board|);
    assert Unlocked(WriteLocked(s.holder, p, 0), p, 0) == s.holder;
  }

  /** Two servers that have found the same slot both grant it. */
  lemma BothTake(s: State) returns (s1: State, s2: State)
    requires WellFormed(s) && |s.servers| >= 2 && s.grants == []
    requires s.servers[0].phase == Found(7, 0) && s.servers[1].phase == Found(8, 0)
    ensures Enabled(s, Take(0)) && s1 == Next(s, Take(0)) && WellFormed(s1)
    ensures Enabled(s1, Take(1)) && s2 == Next(s1, Take(1)) && WellFormed(s2) && !Exclusive(s2)
  {
    s1 := Next(s, Take(0));
    NextIsWellFormed(s, Take(0));
    s2 := Next(s1, Take(1));
    NextIsWellFormed(s1, Take(1));
    assert s2.grants == [Grant(0, 7, 0), Grant(1, 8, 0)];
    assert s2.grants[0].slot == s2.grants[1].slot;
  }

  /** But as soon as there are two servers, both can probe before either locks, and then share a slot. */
  lemma ProbesCanRace(s: State) returns (states: seq<State>, moves: seq<Move>)
    requires Initial(s) && |s.servers| >= 2
    ensures IsRun(states, moves) && states[0] == s
    ensures exists j :: 0 <= j < |states| && !Exclusive(states[j])
  {
    FirstProbe(s, 0, 7);
    var s1 := Next(s, Probe(0, 7));
    FirstProbe(s1, 1, 8);
    var s2 := Next(s1, Probe(1, 8));
    var s3, s4 := BothTake(s2);
    states, moves := [s, s1, s2, s3, s4], [Probe(0, 7), Probe(1, 8), Take(0), Take(1)];
    assert !Exclusive(states[4]);
  }

  /** So slots are never shared, whatever the interleaving, exactly when there is only one server. */
  lemma ExclusiveIffLoneServer(s: State)
    requires Initial(s) && s.servers != []
    ensures |s.servers| == 1 <==>
            forall states, moves, j ::
              IsRun(states, moves) && states[0] == s && 0 <= j < |states| ==> Exclusive(states[j])
  {
    if |s.servers| == 1 {
      forall states, moves, j | IsRun(states, moves) && states[0] == s && 0 <= j < |states|
        ensures Exclusive(states[j])
      {
        LoneServerIsExclusive(states, moves, j);
      }
    } else {
      var states, moves := ProbesCanRace(s);
    }
  }

  // ---------------------------------------------------------------------------------------------
  // What clients are told

  function GrantedSlots(grants: seq<Grant>): set<nat> {
    set k | 0 <= k < |grants| :: grants[k].slot
  }

  lemma {:induction false} CountGrants(grants: seq<Grant>)
    requires forall j, k :: 0 <= j < k < |grants| ==> grants[j].slot != grants[k].slot
    ensures |GrantedSlots(grants)| == |grants|
  {
    if grants != [] {
      var n := |grants| - 1;
      CountGrants(grants[..n]);
      assert GrantedSlots(grants) == GrantedSlots(grants[..n]) + {grants[n].slot};
    }
  }

  /** The slots a server passes over are those with an unfinished grant, its own or another server's. */
  lemma BlockedMeansGranted(s: State, p: nat, i: nat)
    requires Inv(s) && Guarded(s) && p < |s.servers| && i < |s.board|
    ensures Blocked(s.servers[p].locked, s.holder, p, i) <==> i in GrantedSlots(s.grants)
  {
    if i in GrantedSlots(s.grants) {
      var k :| 0 <= k < |s.grants| && s.grants[k].slot == i;
      assert Granted(s.grants, s.grants[k].server, i);
    } else {
      assert forall q | 0 <= q < |s.servers| :: !Granted(s.grants, q, i);
    }
  }

  function Below(n: nat): (slots: set<nat>)
    ensures |slots| == n && forall i: nat :: i in slots <==> i < n
  {
    if n == 0 then {} else Below(n - 1) + {n - 1}
  }

  lemma WholeSubset(a: set<nat>, b: set<nat>)
    requires a <= b
    ensures |a| <= |b| && (|a| == |b| <==> a == b)
  {
    assert b == a + (b - a) && |b| == |a| + |b - a|;
  }

  /** A client is told that the board is full exactly when N posts are unfinished. */
  lemma FullMeansAllGranted(s: State, p: nat)
    requires Inv(s) && Guarded(s) && p < |s.servers|
    ensures |s.grants| <= |s.board|
    ensures Search(s.servers[p].locked, s.holder, p, s.servers[p].last, 0) == -1 <==> |s.grants| == |s.board|
  {
    var v := s.servers[p];
    var granted, all := GrantedSlots(s.grants), Below(|s.board|);
    SearchFailsWhenAllBlocked(v.locked, s.holder, p, v.last);
    forall i | 0 <= i < |s.board| ensures Blocked(v.locked, s.holder, p, i) <==> i in granted {
      BlockedMeansGranted(s, p, i);
    }
    CountGrants(s.grants);
    WholeSubset(granted, all);
  }

  /** Slot i is the first one after `last`, in circular order, without an unfinished grant. */
  ghost predicate FirstUngranted(grants: seq<Grant>, last: nat, n: nat, i: nat)
    requires n > 0
  {
    exists d :: 0 <= d < n && Slot(last, d, n) == i && i !in GrantedSlots(grants)
                && forall e :: 0 <= e < d ==> Slot(last, e, n) in GrantedSlots(grants)
  }

  lemma SearchFindsFirstUngranted(s: State, p: nat)
    requires Inv(s) && Guarded(s) && p < |s.servers| && |s.grants| < |s.board|
    ensures var r := Search(s.servers[p].locked, s.holder, p, s.servers[p].last, 0);
            r >= 0 && FirstUngranted(s.grants, s.servers[p].last, |s.board|, r)
  {
    var v, n := s.servers[p], |s.board|;
    FullMeansAllGranted(s, p);
    var d := SearchIsFirst(v.locked, s.holder, p, v.last, 0);
    forall e | 0 <= e < d ensures Slot(v.last, e, n) in GrantedSlots(s.grants) {
      BlockedMeansGranted(s, p, Slot(v.last, e, n));
    }
    BlockedMeansGranted(s, p, Slot(v.last, d, n));
  }

  /**
   A whole post request gets the first slot after the server's previous grant, in circular order, that
   nobody has an unfinished grant of, and no slot when there is none.
   */
  lemma PostGrantsFirstFreeSlot(s: State, p: nat, client: nat)
    requires Inv(s) && Guarded(s) && p < |s.servers| && s.servers[p].phase.Idle?
    ensures Inv(AfterPost(s, p, client)) && Guarded(AfterPost(s, p, client))
    ensures AfterPost(s, p, client).board == s.board
    ensures |s.grants| == |s.board| ==> AfterPost(s, p, client) == s
    ensures |s.grants| < |s.board| ==>
              exists i :: 0 <= i < |s.board| && FirstUngranted(s.grants, s.servers[p].last, |s.board|, i)
                          && AfterPost(s, p, client).servers[p].last == i
                          && AfterPost(s, p, client).grants == s.grants + [Grant(p, client, i)]
  {
    var m := Probe(p, client);
    var s1 := Next(s, m);
    var r := Search(s.servers[p].locked, s.holder, p, s.servers[p].last, 0);
    FullMeansAllGranted(s, p);
    ProbeReleasesNothing(s, m);
    GuardedStep(s, m);
    if r != -1 {
      SearchFindsFirstUngranted(s, p);
      GuardedStep(s1, Take(p));
    }
  }

  /** What `!pull` sends from the first i slots, and how many of them it is kept from. */
  function Sent(locked: seq<bool>, holder: seq<int>, board: seq<Record>, p: nat, i: nat): seq<Record>
    requires |locked| == |holder| == |board| && i <= |board|
  {
    if i == 0 then []
    else Sent(locked, holder, board, p, i - 1)
         + if Blocked(locked, holder, p, i - 1) || board[i - 1].from == "" then [] else [board[i - 1]]
  }

  function KeptFrom(locked: seq<bool>, holder: seq<int>, p: nat, i: nat): nat
    requires |locked| == |holder| && i <= |locked|
  {
    if i == 0 then 0 else KeptFrom(locked, holder, p, i - 1) + if Blocked(locked, holder, p, i - 1) then 1 else 0
  }

  lemma {:induction false} KeptFromCounts(locked: seq<bool>, holder: seq<int>, p: nat, i: nat, granted: set<nat>)
    requires |locked| == |holder| && i <= |locked|
    requires forall x :: 0 <= x < i ==> (Blocked(locked, holder, p, x) <==> x in granted)
    ensures KeptFrom(locked, holder, p, i) == |set x | x in granted && x < i|
  {
    if i == 0 {
      assert (set x | x in granted && x < 0) == {};
    } else {
      KeptFromCounts(locked, holder, p, i - 1, granted);
      var before := set x | x in granted && x < i - 1;
      assert (set x | x in granted && x < i) == before + if i - 1 in granted then {i - 1} else {};
    }
  }

  /** The number in the warning is the number of unfinished posts. */
  lemma WarningCountsGrants(s: State, p: nat)
    requires Inv(s) && Guarded(s) && p < |s.servers|
    ensures KeptFrom(s.servers[p].locked, s.holder, p, |s.board|) == |s.grants|
  {
    var granted := GrantedSlots(s.grants);
    forall x | 0 <= x < |s.board| ensures Blocked(s.servers[p].locked, s.holder, p, x) <==> x in granted {
      BlockedMeansGranted(s, p, x);
    }
    KeptFromCounts(s.servers[p].locked, s.holder, p, |s.board|, granted);
    CountGrants(s.grants);
    assert (set x | x in granted && x < |s.board|) == granted;
  }

  /** The non-empty records of the first i slots without an unfinished post, in slot order. */
  function Readable(board: seq<Record>, granted: set<nat>, i: nat): seq<Record>
    requires i <= |board|
  {
    if i == 0 then []
    else Readable(board, granted, i - 1) + if i - 1 in granted || board[i - 1].from == "" then [] else [board[i - 1]]
  }

  lemma {:induction false} SentIsReadable(
    locked: seq<bool>, holder: seq<int>, board: seq<Record>, p: nat, i: nat, granted: set<nat>)
    requires |locked| == |holder| == |board| && i <= |board|
    requires forall x :: 0 <= x < i ==> (Blocked(locked, holder, p, x) <==> x in granted)
    ensures Sent(locked, holder, board, p, i) == Readable(board, granted, i)
  {
    if i > 0 {
      SentIsReadable(locked, holder, board, p, i - 1, granted);
    }
  }

  /** A pull sends exactly those records, whichever server is asked. */
  lemma PullSendsReadable(s: State, p: nat)
    requires Inv(s) && Guarded(s) && p < |s.servers|
    ensures Sent(s.servers[p].locked, s.holder, s.board, p, |s.board|)
            == Readable(s.board, GrantedSlots(s.grants), |s.board|)
  {
    var granted := GrantedSlots(s.grants);
    forall x | 0 <= x < |s.board| ensures Blocked(s.servers[p].locked, s.holder, p, x) <==> x in granted {
      BlockedMeansGranted(s, p, x);
    }
    SentIsReadable(s.servers[p].locked, s.holder, s.board, p, |s.board|, granted);
  }

  /** The slots whose records are sent, in increasing order. */
  ghost predicate SlotsOf(slots: seq<nat>, sent: seq<Record>, board: seq<Record>, granted: set<nat>, n: nat)
    requires n <= |board|
  {
    && |slots| == |sent|
    && (forall x :: 0 <= x < |slots| ==> slots[x] < n && sent[x] == board[slots[x]])
    && (forall x, y :: 0 <= x < y < |slots| ==> slots[x] < slots[y])
    && (forall i :: 0 <= i < n ==> (i in slots <==> i !in granted && board[i].from != ""))
  }

  lemma OneMoreSlot(slots: seq<nat>, sent: seq<Record>, board: seq<Record>, granted: set<nat>, n: nat)
    requires n < |board| && SlotsOf(slots, sent, board, granted, n) && n !in granted && board[n].from != ""
    ensures SlotsOf(slots + [n], sent + [board[n]], board, granted, n + 1)
  {
  }

  lemma {:induction false} ReadableSlots(board: seq<Record>, granted: set<nat>, n: nat) returns (slots: seq<nat>)
    requires n <= |board|
    ensures SlotsOf(slots, Readable(board, granted, n), board, granted, n)
  {
    if n == 0 {
      return [];
    }
    slots := ReadableSlots(board, granted, n - 1);
    if n - 1 !in granted && board[n - 1].from != "" {
      OneMoreSlot(slots, Readable(board, granted, n - 1), board, granted, n - 1);
      slots := slots + [n - 1];
    }
  }

  /** A pull sends one by one, in slot order, the records of exactly the non-empty slots without an unfinished post. */
  lemma PullSendsInSlotOrder(s: State, p: nat) returns (slots: seq<nat>)
    requires Inv(s) && Guarded(s) && p < |s.servers|
    ensures SlotsOf(slots, Sent(s.servers[p].locked, s.holder, s.board, p, |s.board|), s.board,
                    GrantedSlots(s.grants), |s.board|)
  {
    PullSendsReadable(s, p);
    slots := ReadableSlots(s.board, GrantedSlots(s.grants), |s.board|);
  }

  // ---------------------------------------------------------------------------------------------
  // Posts one after the other

  /** The records that have arrived, oldest first. */
  function Posts(moves: seq<Move>): seq<Record> {
    if moves == [] then []
    else
      var n := |moves| - 1;
      Posts(moves[..n]) + if moves[n].Finish? then [moves[n].record] else []
  }

  /** Only server p grants slots, and it starts a post only when the one before is finished. */
  predicate OneByOne(s: State, m: Move, p: nat) {
    m.Probe? ==> m.p == p && s.grants == []
  }

  /** Between posts server p stands before slot m modulo N, and during post number m it has granted that slot. */
  predicate RingInv(s: State, p: nat, m: nat)
    requires WellFormed(s) && p < |s.servers|
  {
    var v, i := s.servers[p], m % |s.board|;
    && (forall q :: 0 <= q < |s.servers| && q != p ==> s.servers[q].phase.Idle?)
    && (s.grants == [] ==> (v.last + 1) % |s.board| == i && (v.phase.Found? ==> v.phase.slot == i))
    && (s.grants != [] ==>
          && v.phase.Idle? && v.last == i
          && |s.grants| == 1 && s.grants[0].server == p && s.grants[0].slot == i)
  }

  lemma AddDivisor(j: nat, n: nat)
    requires n > 0
    ensures (j + n) % n == j % n
  {
    assert (j / n + 1) * n == j / n * n + n;
    RemainderIs(j + n, n, j / n + 1, j % n);
  }

  /** Without grants nothing is marked and nothing is locked. */
  lemma NothingHeld(s: State, i: nat)
    requires Inv(s) && s.grants == [] && i < |s.board|
    ensures s.holder[i] == FREE && forall p :: 0 <= p < |s.servers| ==> !s.servers[p].locked[i]
  {
    assert forall p :: 0 <= p < |s.servers| ==> !Granted(s.grants, p, i);
  }

  /** So the search finds the slot right after `last`. */
  lemma SearchWithoutGrants(s: State, p: nat)
    requires Inv(s) && s.grants == [] && p < |s.servers|
    ensures Search(s.servers[p].locked, s.holder, p, s.servers[p].last, 0) == Slot(s.servers[p].last, 0, |s.board|)
  {
    NothingHeld(s, Slot(s.servers[p].last, 0, |s.board|));
  }

  lemma RingProbe(s: State, m: Move, p: nat, count: nat)
    requires Inv(s) && Enabled(s, m) && p < |s.servers| && OneByOne(s, m, p) && RingInv(s, p, count) && m.Probe?
    ensures WellFormed(Next(s, m)) && RingInv(Next(s, m), p, count)
  {
    NextIsWellFormed(s, m);
    SearchWithoutGrants(s, p);
  }

  lemma RingTake(s: State, m: Move, p: nat, count: nat)
    requires Inv(s) && Enabled(s, m) && p < |s.servers| && RingInv(s, p, count) && m.Take?
    ensures WellFormed(Next(s, m)) && RingInv(Next(s, m), p, count)
  {
    NextIsWellFormed(s, m);
  }

  lemma RingFinish(s: State, m: Move, p: nat, count: nat)
    requires Inv(s) && Enabled(s, m) && p < |s.servers| && RingInv(s, p, count) && m.Finish?
    ensures WellFormed(Next(s, m)) && RingInv(Next(s, m), p, count + 1)
    ensures s.grants[m.k].slot == count % |s.board|
  {
    NextIsWellFormed(s, m);
    NextIndex(count, |s.board|);
  }

  lemma RingStep(s: State, m: Move, p: nat, count: nat)
    requires Inv(s) && Enabled(s, m) && p < |s.servers| && OneByOne(s, m, p) && RingInv(s, p, count)
    ensures WellFormed(Next(s, m)) && RingInv(Next(s, m), p, if m.Finish? then count + 1 else count)
    ensures m.Finish? ==> s.grants[m.k].slot == count % |s.board|
  {
    match m
    case Probe(_, _) => RingProbe(s, m, p, count);
    case Take(_) => RingTake(s, m, p, count);
    case Finish(_, _, _) => RingFinish(s, m, p, count);
    case Pull(_) => PullReleasesNothing(s, m);
  }

  /** j is the largest number below m that is i modulo n. */
  predicate LatestFor(i: int, j: int, m: nat, n: nat)
    requires n > 0
  {
    0 <= j < m <= j + n && j % n == i
  }

  /** Record r is the latest post whose number is i modulo N, or what slot i had before if there is none. */
  ghost predicate IsLatest(i: nat, r: Record, initial: seq<Record>, posts: seq<Record>)
    requires i < |initial|
  {
    if i >= |posts| then r == initial[i]
    else exists j :: LatestFor(i, j, |posts|, |initial|) && r == posts[j]
  }

  ghost predicate IsRingLog(board: seq<Record>, initial: seq<Record>, posts: seq<Record>) {
    |board| == |initial| > 0 && forall i :: 0 <= i < |board| ==> IsLatest(i, board[i], initial, posts)
  }

  /** What slot i has is still right after post number m, which goes to another slot. */
  lemma StillLatest(i: nat, j: nat, m: nat, n: nat)
    requires n > 0 && LatestFor(i, j, m, n) && i != m % n
    ensures LatestFor(i, j, m + 1, n)
  {
    if m == j + n {
      AddDivisor(j, n);
    }
  }

  lemma SlotGrows(i: nat, had: Record, initial: seq<Record>, posts: seq<Record>, r: Record)
    requires i < |initial| && IsLatest(i, had, initial, posts)
    ensures IsLatest(i, if i == |posts| % |initial| then r else had, initial, posts + [r])
  {
    var n, m := |initial|, |posts|;
    var posts' := posts + [r];
    if m < n {
      RemainderIs(m, n, 0, m);
    }
    if i == m % n {
      assert LatestFor(i, m, m + 1, n) && r == posts'[m];
    } else if i < m {
      var j :| LatestFor(i, j, m, n) && had == posts[j];
      StillLatest(i, j, m, n);
      assert LatestFor(i, j, m + 1, n) && had == posts'[j];
    }
  }

  lemma RingLogGrows(board: seq<Record>, initial: seq<Record>, posts: seq<Record>, slot: nat, r: Record)
    requires IsRingLog(board, initial, posts) && slot == |posts| % |board|
    ensures slot < |board| && IsRingLog(board[slot := r], initial, posts + [r])
  {
    var board', posts' := board[slot := r], posts + [r];
    forall i | 0 <= i < |board'| ensures IsLatest(i, board'[i], initial, posts') {
      SlotGrows(i, board[i], initial, posts, r);
    }
  }

  lemma PostsAppend(moves: seq<Move>, m: Move)
    ensures Posts(moves + [m]) == Posts(moves) + if m.Finish? then [m.record] else []
  {
    assert (moves + [m])[..|moves|] == moves;
  }

  /** The state of a run that began with board `initial` and in which `posts` have arrived. */
  ghost predicate InRing(s: State, p: nat, initial: seq<Record>, posts: seq<Record>) {
    Inv(s) && p < |s.servers| && RingInv(s, p, |posts|) && IsRingLog(s.board, initial, posts)
  }

  lemma InRingStep(s: State, m: Move, p: nat, initial: seq<Record>, posts: seq<Record>)
    requires InRing(s, p, initial, posts) && Enabled(s, m) && OneByOne(s, m, p)
    ensures InRing(Next(s, m), p, initial, posts + if m.Finish? then [m.record] else [])
  {
    InvStep(s, m);
    RingStep(s, m, p, |posts|);
    if m.Finish? {
      RingLogGrows(s.board, initial, posts, s.grants[m.k].slot, m.record);
    } else {
      assert posts + [] == posts;
    }
  }

  lemma InRingInitially(s: State, p: nat)
    requires Initial(s) && p < |s.servers|
    ensures InRing(s, p, s.board, [])
  {
    RemainderIs(0, |s.board|, 0, 0);
    RemainderIs(|s.board|, |s.board|, 1, 0);
  }

  /**
   In every run in which only server p grants slots, one post after the other, the board is a ring log
   of the posts over its initial contents ...
   */
  lemma {:induction false} SequentialPostsFormARing(states: seq<State>, moves: seq<Move>, p: nat, j: nat)
    requires IsRun(states, moves) && p < |states[0].servers| && j < |states|
    requires forall l :: 0 <= l < |moves| ==> OneByOne(states[l], moves[l], p)
    ensures InRing(states[j], p, states[0].board, Posts(moves[..j]))
  {
    if j == 0 {
      InRingInitially(states[0], p);
    } else {
      SequentialPostsFormARing(states, moves, p, j - 1);
      InRingStep(states[j - 1], moves[j - 1], p, states[0].board, Posts(moves[..j - 1]));
      assert moves[..j] == moves[..j - 1] + [moves[j - 1]];
      PostsAppend(moves[..j - 1], moves[j - 1]);
    }
  }

  /** ... and post number m, counted from 0, lands in slot m modulo N. */
  lemma PostLandsInTurn(states: seq<State>, moves: seq<Move>, p: nat, j: nat)
    requires IsRun(states, moves) && p < |states[0].servers| && j < |moves| && moves[j].Finish?
    requires forall l :: 0 <= l < |moves| ==> OneByOne(states[l], moves[l], p)
    ensures var m := |Posts(moves[..j])|;
            var slot := states[j].grants[moves[j].k].slot;
            && slot == m % |states[j].board|
            && slot < |states[j + 1].board| && states[j + 1].board[slot] == moves[j].record
  {
    SequentialPostsFormARing(states, moves, p, j);
    RingStep(states[j], moves[j], p, |Posts(moves[..j])|);
  }
}
