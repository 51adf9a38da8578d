/**
 The servers of the bulletin board with one step for every record lock they take or give back. A
 search and a pull hold the lock of a slot for a moment, and other servers can run into it. Records
 play no part here: only who marks, locks and promises which slot.
 */
module BulletinProbes {
  import B = BulletinBoard

  datatype Phase =
    | Idle
    | Searching(client: nat, d: nat, i: nat)   // 82-86: about to look at slot i after d others
    | Probing(client: nat, i: nat)             // 88: holds the lock of slot i for a moment
    | Found(client: nat, i: nat)               // 184: slot i is to be granted
    | Pulling(i: nat)                          // 216: about to look at slot i
    | Peeking(i: nat)                          // 220: holds the lock of slot i for a moment

  datatype Server = Server(locked: seq<bool>, last: nat, phase: Phase)

  datatype State = State(holder: seq<int>, servers: seq<Server>, grants: seq<B.Grant>)

  datatype Move = Post(p: nat, client: nat) | Pull(p: nat) | Finish(p: nat, k: nat) | Advance(p: nat)

  predicate PhaseFits(phase: Phase, n: nat) {
    match phase
    case Idle => true
    case Searching(_, d, i) => d <= n && i < n
    case Probing(_, i) => i < n
    case Found(_, i) => i < n
    case Pulling(i) => i <= n
    case Peeking(i) => i < n
  }

  predicate WellFormed(s: State) {
    && 0 < |s.holder|
    && (forall p :: 0 <= p < |s.servers| ==>
          var v := s.servers[p];
          |v.locked| == |s.holder| && v.last < |s.holder| && PhaseFits(v.phase, |s.holder|))
    && (forall k :: 0 <= k < |s.grants| ==> s.grants[k].server < |s.servers| && s.grants[k].slot < |s.holder|)
  }

  predicate Initial(s: State) {
    && WellFormed(s) && s.grants == []
    && (forall i :: 0 <= i < |s.holder| ==> s.holder[i] == B.FREE)
    && forall p :: 0 <= p < |s.servers| ==>
         var v := s.servers[p];
         v.phase == Idle && v.last == |s.holder| - 1 && forall i :: 0 <= i < |v.locked| ==> !v.locked[i]
  }

  predicate Enabled(s: State, m: Move) {
    && m.p < |s.servers|
    && (m.Advance? <==> !s.servers[m.p].phase.Idle?)
    && (m.Finish? ==> m.k < |s.grants| && s.grants[m.k].server == m.p)
  }

  /** The slot after i. */
  function After(i: nat, n: nat): (j: nat)
    requires n > 0
    ensures j < n
  {
    (i + 1) % n
  }

  /** Look at slot i: pass over it, or take its lock. */
  function Look(s: State, p: nat, i: nat, passed: Phase, taken: Phase): State
    requires WellFormed(s) && p < |s.servers| && i < |s.holder|
  {
    var v := s.servers[p];
    if B.Blocked(v.locked, s.holder, p, i) then s.(servers := s.servers[p := v.(phase := passed)])
    else s.(holder := B.WriteLocked(s.holder, p, i), servers := s.servers[p := v.(phase := taken)])
  }

  function Advanced(s: State, p: nat): State
    requires WellFormed(s) && p < |s.servers|
  {
    var v, n := s.servers[p], |s.holder|;
    match v.phase
    case Idle => s
    case Searching(client, d, i) =>
      if d == n then s.(servers := s.servers[p := v.(phase := Idle)])  // "!full"
      else Look(s, p, i, Searching(client, d + 1, After(i, n)), Probing(client, i))
    case Probing(client, i) =>
      s.(holder := B.Unlocked(s.holder, p, i), servers := s.servers[p := v.(phase := Found(client, i))])
    case Found(client, i) =>
      State(B.WriteLocked(s.holder, p, i),
            s.servers[p := Server(v.locked[i := true], i, Idle)],
            s.grants + [B.Grant(p, client, i)])
    case Pulling(i) =>
      if i == n then s.(servers := s.servers[p := v.(phase := Idle)])  // "!end"
      else Look(s, p, i, Pulling(i + 1), Peeking(i))
    case Peeking(i) =>
      s.(holder := B.Unlocked(s.holder, p, i), servers := s.servers[p := v.(phase := Pulling(i + 1))])
  }

  function Next(s: State, m: Move): State
    requires WellFormed(s) && Enabled(s, m)
  {
    var v := s.servers[m.p];
    match m
    case Post(p, client) => s.(servers := s.servers[p := v.(phase := Searching(client, 0, After(v.last, |s.holder|)))])
    case Pull(p) => s.(servers := s.servers[p := v.(phase := Pulling(0))])
    case Finish(p, k) =>
      var i := s.grants[k].slot;
      State(B.Unlocked(s.holder, p, i),
            s.servers[p := v.(locked := v.locked[i := false])],
            s.grants[..k] + s.grants[k + 1..])
    case Advance(p) => Advanced(s, p)
  }

  ghost predicate IsRun(s: State, run: seq<Move>, s': State)
    decreases |run|
  {
    if run == [] then s == s'
    else WellFormed(s) && Enabled(s, run[0]) && IsRun(Next(s, run[0]), run[1..], s')
  }

  // ---------------------------------------------------------------------------------------------
  // What every step keeps

  /** The server holds the lock of slot i only to give it back. */
  predicate Touches(v: Server, i: nat) {
    (v.phase.Probing? || v.phase.Peeking?) && v.phase.i == i
  }

  /** A server's table marks exactly the slots it has granted. */
  predicate TableAt(s: State, p: nat, i: nat)
    requires WellFormed(s) && p < |s.servers| && i < |s.holder|
  {
    s.servers[p].locked[i] <==> B.Granted(s.grants, p, i)
  }

  /** A lock is held for a grant or for a moment. */
  predicate HolderAt(s: State, i: nat)
    requires WellFormed(s) && i < |s.holder|
  {
    s.holder[i] != B.FREE ==>
      && 0 <= s.holder[i] < |s.servers|
      && (s.servers[s.holder[i]].locked[i] || Touches(s.servers[s.holder[i]], i))
  }

  /** For a moment means: by this server, and not for a grant. What a search has found is not granted either. */
  predicate TouchAt(s: State, p: nat)
    requires WellFormed(s) && p < |s.servers|
  {
    var v := s.servers[p];
    && (v.phase.Probing? || v.phase.Peeking? ==> s.holder[v.phase.i] == p && !v.locked[v.phase.i])
    && (v.phase.Found? ==> !v.locked[v.phase.i])
  }

  ghost predicate Inv(s: State) {
    && WellFormed(s) && B.OwnGrantsDiffer(s.grants)
    && (forall p, i :: 0 <= p < |s.servers| && 0 <= i < |s.holder| ==> TableAt(s, p, i))
    && (forall i :: 0 <= i < |s.holder| ==> HolderAt(s, i))
    && (forall p :: 0 <= p < |s.servers| ==> TouchAt(s, p))
  }

  lemma NextIsWellFormed(s: State, m: Move)
    requires WellFormed(s) && Enabled(s, m)
    ensures WellFormed(Next(s, m))
  {
  }

  /** The step of line 184. */
  predicate Takes(s: State, m: Move)
    requires Enabled(s, m)
  {
    m.Advance? && s.servers[m.p].phase.Found?
  }

  /** Only finishing and granting change tables and grants. */
  lemma OthersKeepTables(s: State, m: Move, p: nat)
    requires WellFormed(s) && Enabled(s, m) && !m.Finish? && !Takes(s, m) && p < |s.servers|
    ensures Next(s, m).grants == s.grants && Next(s, m).servers[p].locked == s.servers[p].locked
  {
  }

  lemma TableStep(s: State, m: Move, p: nat, i: nat)
    requires WellFormed(s) && B.OwnGrantsDiffer(s.grants) && Enabled(s, m) && p < |s.servers| && i < |s.holder|
    requires TableAt(s, p, i)
    ensures WellFormed(Next(s, m)) && TableAt(Next(s, m), p, i)
  {
    NextIsWellFormed(s, m);
    if m.Finish? {
      B.GrantedAfterFinish(s.grants, m.k, p, i);
    } else if Takes(s, m) {
      B.GrantedAfterTake(s.grants, B.Grant(m.p, s.servers[m.p].phase.client, s.servers[m.p].phase.i), p, i);
    } else {
      OthersKeepTables(s, m, p);
    }
  }

  lemma GrantsStillDiffer(s: State, m: Move)
    requires WellFormed(s) && B.OwnGrantsDiffer(s.grants) && Enabled(s, m)
    requires Takes(s, m) ==> TouchAt(s, m.p) && TableAt(s, m.p, s.servers[m.p].phase.i)
    ensures B.OwnGrantsDiffer(Next(s, m).grants)
  {
    if m.Finish? {
      B.Remaining(s.grants, m.k);
    } else if !Takes(s, m) {
      OthersKeepTables(s, m, m.p);
    }
  }

  lemma HolderStep(s: State, m: Move, i: nat)
    requires WellFormed(s) && Enabled(s, m) && i < |s.holder| && HolderAt(s, i) && TouchAt(s, m.p)
    ensures WellFormed(Next(s, m)) && HolderAt(Next(s, m), i)
  {
    NextIsWellFormed(s, m);
  }

  lemma TouchStep(s: State, m: Move, p: nat)
    requires WellFormed(s) && Enabled(s, m) && p < |s.servers| && TouchAt(s, p) && TouchAt(s, m.p)
    ensures WellFormed(Next(s, m)) && TouchAt(Next(s, m), p)
  {
    NextIsWellFormed(s, m);
  }

  lemma InvStep(s: State, m: Move)
    requires Inv(s) && Enabled(s, m)
    ensures Inv(Next(s, m))
  {
    var s' := Next(s, m);
    NextIsWellFormed(s, m);
    GrantsStillDiffer(s, m);
    assert |s'.servers| == |s.servers| && |s'.holder| == |s.holder|;
    forall p, i | 0 <= p < |s'.servers| && 0 <= i < |s'.holder| ensures TableAt(s', p, i) {
      TableStep(s, m, p, i);
    }
    forall i | 0 <= i < |s'.holder| ensures HolderAt(s', i) {
      HolderStep(s, m, i);
    }
    forall p | 0 <= p < |s'.servers| ensures TouchAt(s', p) {
      TouchStep(s, m, p);
    }
  }

  lemma {:induction false} InvAlongRun(s: State, run: seq<Move>, s': State)
    requires Inv(s) && IsRun(s, run, s')
    ensures Inv(s') && |s'.servers| == |s.servers| && |s'.holder| == |s.holder|
    decreases |run|
  {
    if run != [] {
      InvStep(s, run[0]);
      InvAlongRun(Next(s, run[0]), run[1..], s');
    }
  }

  /** The invariant holds in every state of every run, however the single lock operations interleave. */
  lemma ReachableInv(s: State, run: seq<Move>, s': State)
    requires Initial(s) && IsRun(s, run, s')
    ensures Inv(s') && |s'.servers| == |s.servers| && |s'.holder| == |s.holder|
  {
    assert forall p, i :: 0 <= p < |s.servers| && 0 <= i < |s.holder| ==> TableAt(s, p, i);
    InvAlongRun(s, run, s');
  }

  // ---------------------------------------------------------------------------------------------
  // The lock of a grant

  /** A server gives back only locks it holds for a moment, or for the grant being finished. */
  lemma GrantKeepsItsLock(s: State, k: nat, m: Move)
    requires Inv(s) && Enabled(s, m) && k < |s.grants| && !(m.Finish? && m.k == k)
    requires s.holder[s.grants[k].slot] == s.grants[k].server
    ensures Next(s, m).holder[s.grants[k].slot] == s.grants[k].server
  {
    var g := s.grants[k];
    assert B.Granted(s.grants, g.server, g.slot);
    assert TableAt(s, g.server, g.slot) && TouchAt(s, m.p);
  }

  /** Where grant number k is after a step. */
  function PlaceAfter(m: Move, k: nat): int {
    if m.Finish? && m.k < k then k - 1 else k
  }

  /** Neither kind of grant moves otherwise. */
  lemma GrantStays(s: State, m: Move, k: nat)
    requires WellFormed(s) && Enabled(s, m) && k < |s.grants| && !(m.Finish? && m.k == k)
    ensures var j := PlaceAfter(m, k); 0 <= j < |Next(s, m).grants| && Next(s, m).grants[j] == s.grants[k]
  {
  }

  /** Grant number k of s is not finished in the run. */
  ghost predicate Unfinished(s: State, run: seq<Move>, s': State, k: nat)
    requires IsRun(s, run, s')
    decreases |run|
  {
    run == [] ||
    (!(run[0].Finish? && run[0].k == k) && PlaceAfter(run[0], k) >= 0
     && Unfinished(Next(s, run[0]), run[1..], s', PlaceAfter(run[0], k)))
  }

  /**
   The record lock held for a grant stays held as long as the grant is unfinished, whatever single
   lock operations the servers make meanwhile.
   */
  lemma {:induction false} LockLastsAsLongAsGrant(s: State, run: seq<Move>, s': State, k: nat)
    requires Inv(s) && IsRun(s, run, s') && k < |s.grants| && Unfinished(s, run, s', k)
    requires s.holder[s.grants[k].slot] == s.grants[k].server
    ensures s.grants[k].slot < |s'.holder| && s'.holder[s.grants[k].slot] == s.grants[k].server
    decreases |run|
  {
    if run != [] {
      InvStep(s, run[0]);
      GrantKeepsItsLock(s, k, run[0]);
      GrantStays(s, run[0], k);
      LockLastsAsLongAsGrant(Next(s, run[0]), run[1..], s', PlaceAfter(run[0], k));
    }
  }

  // ---------------------------------------------------------------------------------------------
  // Passing over a slot that nobody has been promised

  /** The server is about to look at slot i. */
  predicate LooksAt(v: Server, i: nat, n: nat) {
    (v.phase.Searching? && v.phase.d < n && v.phase.i == i) || (v.phase.Pulling? && v.phase.i == i < n)
  }

  /** Every unfinished grant holds the record lock of its slot. */
  predicate Guarded(s: State)
    requires WellFormed(s)
  {
    forall k :: 0 <= k < |s.grants| ==> s.holder[s.grants[k].slot] == s.grants[k].server
  }

  /**
   A server passes over a slot if and only if somebody, itself or another server, has an unfinished
   grant of it, or another server holds its lock for just that moment.
   */
  lemma PassesIffGrantedOrTouched(s: State, p: nat, i: nat)
    requires Inv(s) && Guarded(s) && p < |s.servers| && i < |s.holder| && LooksAt(s.servers[p], i, |s.holder|)
    ensures B.Blocked(s.servers[p].locked, s.holder, p, i) <==>
            || i in B.GrantedSlots(s.grants)
            || exists q :: 0 <= q < |s.servers| && q != p && Touches(s.servers[q], i)
  {
    assert HolderAt(s, i) && TableAt(s, p, i);
    assert forall q :: 0 <= q < |s.servers| && Touches(s.servers[q], i) ==> TouchAt(s, q);
    if i in B.GrantedSlots(s.grants) {
      var k :| 0 <= k < |s.grants| && s.grants[k].slot == i;
      assert s.holder[i] == s.grants[k].server && B.Granted(s.grants, s.grants[k].server, i);
    } else {
      assert !B.Granted(s.grants, p, i);
      if B.Blocked(s.servers[p].locked, s.holder, p, i) {
        assert TableAt(s, s.holder[i], i) && !B.Granted(s.grants, s.holder[i], i);
        assert Touches(s.servers[s.holder[i]], i);
      }
    }
  }

  /** The server is about to answer "!full" although fewer posts are unfinished than there are slots. */
  predicate FalseFull(s: State, p: nat) {
    && p < |s.servers| && s.servers[p].phase.Searching? && s.servers[p].phase.d == |s.holder|
    && |s.grants| < |s.holder|
  }

  /** A lone server has marked every slot its search has passed. */
  predicate PassedAreLocked(s: State)
    requires WellFormed(s) && |s.servers| == 1
  {
    var v, n := s.servers[0], |s.holder|;
    v.phase.Searching? ==>
      && v.phase.i == B.Slot(v.last, v.phase.d, n)
      && forall e :: 0 <= e < v.phase.d ==> v.locked[B.Slot(v.last, e, n)]
  }

  lemma LoneStep(s: State, m: Move)
    requires WellFormed(s) && (forall i :: 0 <= i < |s.holder| ==> HolderAt(s, i)) && Enabled(s, m)
    requires |s.servers| == 1 && PassedAreLocked(s)
    ensures WellFormed(Next(s, m)) && |Next(s, m).servers| == 1 && PassedAreLocked(Next(s, m))
  {
    NextIsWellFormed(s, m);
    var v := s.servers[0];
    if v.phase.Searching? {
      assert HolderAt(s, v.phase.i);
      B.NextSlot(v.last, v.phase.d, |s.holder|);
    }
  }

  /** When all slots are marked by one server, it has as many unfinished grants. */
  lemma AllLockedMeansAllGranted(s: State)
    requires Inv(s) && |s.servers| == 1 && forall i :: 0 <= i < |s.holder| ==> s.servers[0].locked[i]
    ensures |s.grants| == |s.holder|
  {
    var granted, all := B.GrantedSlots(s.grants), B.Below(|s.holder|);
    forall i: nat | i < |s.holder| ensures i in granted {
      assert TableAt(s, 0, i);
    }
    B.CountGrants(s.grants);
    assert granted == all;
  }

  lemma LoneServerNotFalseFull(s: State)
    requires Inv(s) && |s.servers| == 1 && PassedAreLocked(s)
    ensures !FalseFull(s, 0)
  {
    var v, n := s.servers[0], |s.holder|;
    if v.phase.Searching? && v.phase.d == n {
      forall i | 0 <= i < n ensures v.locked[i] {
        var e := B.SlotReaches(v.last, i, n);
      }
      AllLockedMeansAllGranted(s);
    }
  }

  lemma {:induction false} LoneServerNeverFalseFull(s: State, run: seq<Move>, s': State)
    requires Inv(s) && |s.servers| == 1 && PassedAreLocked(s) && IsRun(s, run, s')
    ensures |s'.servers| == 1 && !FalseFull(s', 0)
    decreases |run|
  {
    if run == [] {
      LoneServerNotFalseFull(s);
    } else {
      InvStep(s, run[0]);
      LoneStep(s, run[0]);
      LoneServerNeverFalseFull(Next(s, run[0]), run[1..], s');
    }
  }

  /** Server 0 pulls and server 1 searches, both at slot d, and nothing is locked. */
  predicate InStep(s: State, d: nat) {
    && WellFormed(s) && |s.servers| >= 2 && d <= |s.holder| && s.grants == []
    && (forall i :: 0 <= i < |s.holder| ==> s.holder[i] == B.FREE)
    && s.servers[0].phase == Pulling(d) && s.servers[1].phase.Searching? && s.servers[1].phase.d == d
    && (d < |s.holder| ==> s.servers[1].phase.i == d)
    && forall i :: 0 <= i < |s.holder| ==> !s.servers[0].locked[i]
  }

  /** Server 0 locks slot d, server 1 passes over it, and server 0 gives it back. */
  lemma StepTogether(s: State, d: nat) returns (s': State)
    requires InStep(s, d) && d < |s.holder|
    ensures IsRun(s, [Advance(0), Advance(1), Advance(0)], s') && InStep(s', d + 1) && |s'.holder| == |s.holder|
  {
    if d + 1 < |s.holder| {
      B.RemainderIs(d + 1, |s.holder|, 0, d + 1);
    }
    var s1 := Next(s, Advance(0));
    NextIsWellFormed(s, Advance(0));
    var s2 := Next(s1, Advance(1));
    NextIsWellFormed(s1, Advance(1));
    s' := Next(s2, Advance(0));
    NextIsWellFormed(s2, Advance(0));
    assert s1.servers[0].phase == Peeking(d) && s1.holder == s.holder[d := 0] && s1.servers[1] == s.servers[1];
    assert s2.servers[1].phase == Searching(s.servers[1].phase.client, d + 1, After(d, |s.holder|));
    assert s2.holder == s1.holder && s2.servers[0] == s1.servers[0] && s'.holder == s.holder;
    assert IsRun(s2, [Advance(0)], s');
    assert IsRun(s1, [Advance(1), Advance(0)], s');
  }

  lemma {:induction false} RunsCompose(s: State, first: seq<Move>, t: State, second: seq<Move>, u: State)
    requires IsRun(s, first, t) && IsRun(t, second, u)
    ensures IsRun(s, first + second, u)
    decreases |first|
  {
    if first == [] {
      assert first + second == second;
    } else {
      RunsCompose(Next(s, first[0]), first[1..], t, second, u);
      assert (first + second)[1..] == first[1..] + second;
    }
  }

  lemma {:induction false} PullKeepsPostOut(s: State, d: nat) returns (run: seq<Move>, s': State)
    requires InStep(s, d)
    ensures IsRun(s, run, s') && FalseFull(s', 1)
    decreases |s.holder| - d
  {
    if d == |s.holder| {
      return [], s;
    }
    var mid := StepTogether(s, d);
    run, s' := PullKeepsPostOut(mid, d + 1);
    RunsCompose(s, [Advance(0), Advance(1), Advance(0)], mid, run, s');
    run := [Advance(0), Advance(1), Advance(0)] + run;
  }

  /** One server begins to pull and another to search. */
  lemma BeginTogether(s: State) returns (run: seq<Move>, s': State)
    requires Initial(s) && |s.servers| >= 2
    ensures IsRun(s, run, s') && InStep(s', 0)
  {
    var s1 := Next(s, Pull(0));
    NextIsWellFormed(s, Pull(0));
    s' := Next(s1, Post(1, 7));
    NextIsWellFormed(s1, Post(1, 7));
    B.RemainderIs(|s.holder|, |s.holder|, 1, 0);
    run := [Pull(0), Post(1, 7)];
    assert IsRun(s1, [Post(1, 7)], s');
  }

  /**
   Some run makes a server answer "!full" although fewer than N posts are unfinished, if and only if
   there are at least two servers: the pull of one can keep the search of another out of every slot
   in turn.
   */
  lemma FalseFullIffTwoServers(s: State)
    requires Initial(s) && s.servers != []
    ensures (exists run, s', p :: GivesFalseFull(s, run, s', p)) <==> |s.servers| >= 2
  {
    if |s.servers| >= 2 {
      var run1, s1 := BeginTogether(s);
      var run2, s' := PullKeepsPostOut(s1, 0);
      RunsCompose(s, run1, s1, run2, s');
      assert GivesFalseFull(s, run1 + run2, s', 1);
    } else {
      forall run, s', p | GivesFalseFull(s, run, s', p) ensures false {
        ReachableInv(s, [], s);
        LoneServerNeverFalseFull(s, run, s');
      }
    }
  }

  ghost predicate GivesFalseFull(s: State, run: seq<Move>, s': State, p: nat) {
    IsRun(s, run, s') && FalseFull(s', p)
  }

  // ---------------------------------------------------------------------------------------------
  // The unchecked lock

  /** The lock of line 184 is not refused. */
  predicate Succeeds(s: State, m: Move)
    requires WellFormed(s) && Enabled(s, m)
  {
    Takes(s, m) ==> B.Grantable(s.holder, m.p, s.servers[m.p].phase.i)
  }

  ghost predicate AllSucceed(s: State, run: seq<Move>, s': State)
    requires IsRun(s, run, s')
    decreases |run|
  {
    run == [] || (Succeeds(s, run[0]) && AllSucceed(Next(s, run[0]), run[1..], s'))
  }

  ghost predicate AlwaysGuarded(s: State, run: seq<Move>, s': State)
    requires WellFormed(s) && IsRun(s, run, s')
    decreases |run|
  {
    Guarded(s) &&
    (run != [] ==> WellFormed(Next(s, run[0])) && AlwaysGuarded(Next(s, run[0]), run[1..], s'))
  }

  lemma GuardedFinish(s: State, m: Move)
    requires Inv(s) && Enabled(s, m) && Guarded(s) && m.Finish?
    ensures WellFormed(Next(s, m)) && Guarded(Next(s, m))
  {
    NextIsWellFormed(s, m);
    B.Remaining(s.grants, m.k);
  }

  lemma GuardedTake(s: State, m: Move)
    requires Inv(s) && Enabled(s, m) && Guarded(s) && Takes(s, m)
    ensures WellFormed(Next(s, m)) && (Guarded(Next(s, m)) <==> Succeeds(s, m))
  {
    NextIsWellFormed(s, m);
    var s', v := Next(s, m), s.servers[m.p];
    assert TouchAt(s, m.p) && TableAt(s, m.p, v.phase.i);
    assert s'.grants[|s.grants|] == B.Grant(m.p, v.phase.client, v.phase.i);
    forall k | 0 <= k < |s.grants| ensures s'.holder[s.grants[k].slot] == s.grants[k].server {
      GrantKeepsItsLock(s, k, m);
    }
  }

  lemma GuardedStep(s: State, m: Move)
    requires Inv(s) && Enabled(s, m) && Guarded(s)
    ensures WellFormed(Next(s, m)) && (Guarded(Next(s, m)) <==> Succeeds(s, m))
  {
    if m.Finish? {
      GuardedFinish(s, m);
    } else if Takes(s, m) {
      GuardedTake(s, m);
    } else {
      NextIsWellFormed(s, m);
      OthersKeepTables(s, m, m.p);
      forall k | 0 <= k < |s.grants| ensures Next(s, m).holder[s.grants[k].slot] == s.grants[k].server {
        GrantKeepsItsLock(s, k, m);
      }
    }
  }

  /** All unfinished grants are locked throughout a run if and only if the unchecked lock always succeeds. */
  lemma {:induction false} GuardedIffLocksSucceed(s: State, run: seq<Move>, s': State)
    requires Inv(s) && Guarded(s) && IsRun(s, run, s')
    ensures AlwaysGuarded(s, run, s') <==> AllSucceed(s, run, s')
    decreases |run|
  {
    if run != [] {
      InvStep(s, run[0]);
      GuardedStep(s, run[0]);
      if Guarded(Next(s, run[0])) {
        GuardedIffLocksSucceed(Next(s, run[0]), run[1..], s');
      }
    }
  }

  /** And then no two of them share a slot. */
  lemma GuardedIsExclusive(s: State)
    requires Inv(s) && Guarded(s)
    ensures forall j, k :: 0 <= j < k < |s.grants| ==> s.grants[j].slot != s.grants[k].slot
  {
  }

  // ---------------------------------------------------------------------------------------------
  // Served without interference

  /** The state of the coarser model, with the records of the board. */
  function Coarse(s: State, board: seq<B.Record>): B.State {
    B.State(board, s.holder,
            seq(|s.servers|, p requires 0 <= p < |s.servers| => CoarseServer(s.servers[p])), s.grants)
  }

  function CoarseServer(v: Server): B.Server {
    B.Server(v.locked, v.last, match v.phase case Found(client, i) => B.Found(client, i) case _ => B.Idle)
  }

  lemma CoarseIsWellFormed(s: State, board: seq<B.Record>)
    requires WellFormed(s) && |board| == |s.holder|
    ensures B.WellFormed(Coarse(s, board))
  {
  }

  /** Moves of server p alone. */
  predicate Alone(run: seq<Move>, p: nat) {
    forall j :: 0 <= j < |run| ==> run[j] == Advance(p)
  }

  function WithPhase(s: State, p: nat, phase: Phase): State
    requires p < |s.servers|
  {
    s.(servers := s.servers[p := s.servers[p].(phase := phase)])
  }

  lemma RunBegins(s: State, m: Move, run: seq<Move>, s': State)
    requires WellFormed(s) && Enabled(s, m) && IsRun(Next(s, m), run, s')
    ensures IsRun(s, [m] + run, s')
  {
    assert ([m] + run)[1..] == run;
  }

  /** A slot that is not blocked is found, and its lock is left as it was. */
  lemma FindAlone(s: State, p: nat)
    requires Inv(s) && p < |s.servers| && s.servers[p].phase.Searching? && s.servers[p].phase.d < |s.holder|
    requires !B.Blocked(s.servers[p].locked, s.holder, p, s.servers[p].phase.i)
    ensures var v := s.servers[p];
            IsRun(s, [Advance(p), Advance(p)], WithPhase(s, p, Found(v.phase.client, v.phase.i)))
  {
    var v := s.servers[p];
    assert HolderAt(s, v.phase.i);
    NextIsWellFormed(s, Advance(p));
    var s1 := Next(s, Advance(p));
    var s2 := Next(s1, Advance(p));
    assert s2.holder == s.holder;
    assert s2.servers == s.servers[p := v.(phase := Found(v.phase.client, v.phase.i))];
    assert IsRun(s1, [Advance(p)], s2);
  }

  /** A search without interference ends with what the search of the coarser model yields. */
  lemma {:induction false} SearchAlone(s: State, p: nat) returns (run: seq<Move>, s': State)
    requires Inv(s) && p < |s.servers| && s.servers[p].phase.Searching?
    requires var v := s.servers[p]; v.phase.i == B.Slot(v.last, v.phase.d, |s.holder|)
    ensures IsRun(s, run, s') && Alone(run, p)
    ensures var v := s.servers[p];
            var r := B.Search(v.locked, s.holder, p, v.last, v.phase.d);
            s' == WithPhase(s, p, if r == -1 then Idle else Found(v.phase.client, r))
    decreases |s.holder| - s.servers[p].phase.d
  {
    var v, n := s.servers[p], |s.holder|;
    var next := Next(s, Advance(p));
    if v.phase.d == n {
      run, s' := [Advance(p)], next;
      assert IsRun(next, [], s') && run[1..] == [];
    } else if B.Blocked(v.locked, s.holder, p, v.phase.i) {
      B.NextSlot(v.last, v.phase.d, n);
      InvStep(s, Advance(p));
      assert next == WithPhase(s, p, Searching(v.phase.client, v.phase.d + 1, After(v.phase.i, n)));
      var rest;
      rest, s' := SearchAlone(next, p);
      RunBegins(s, Advance(p), rest, s');
      run := [Advance(p)] + rest;
    } else {
      FindAlone(s, p);
      run, s' := [Advance(p), Advance(p)], WithPhase(s, p, Found(v.phase.client, v.phase.i));
    }
  }

  /** So `!post` up to line 183 is then the single step Probe. */
  lemma PostAlone(s: State, p: nat, client: nat, board: seq<B.Record>) returns (run: seq<Move>, s': State)
    requires Inv(s) && p < |s.servers| && s.servers[p].phase.Idle? && |board| == |s.holder|
    ensures IsRun(s, [Post(p, client)] + run, s') && Alone(run, p)
    ensures B.WellFormed(Coarse(s, board)) && Coarse(s', board) == B.Next(Coarse(s, board), B.Probe(p, client))
  {
    var v, n := s.servers[p], |s.holder|;
    CoarseIsWellFormed(s, board);
    InvStep(s, Post(p, client));
    run, s' := SearchAlone(Next(s, Post(p, client)), p);
    RunBegins(s, Post(p, client), run, s');
    var r := B.Search(v.locked, s.holder, p, v.last, 0);
    var phase := if r == -1 then Idle else Found(client, r);
    assert s' == WithPhase(s, p, phase);
    SameHolder(s, p, r);
    CoarsePhase(s, p, phase, board);
  }

  lemma SameHolder(s: State, p: nat, r: int)
    requires Inv(s) && p < |s.servers| && s.servers[p].phase.Idle?
    requires r >= 0 ==> r < |s.holder| && !B.Blocked(s.servers[p].locked, s.holder, p, r)
    ensures r >= 0 ==> B.Unlocked(B.WriteLocked(s.holder, p, r), p, r) == s.holder
  {
    if r >= 0 {
      assert HolderAt(s, r);
    }
  }

  lemma CoarsePhase(s: State, p: nat, phase: Phase, board: seq<B.Record>)
    requires p < |s.servers|
    ensures Coarse(WithPhase(s, p, phase), board)
            == Coarse(s, board).(servers := Coarse(s, board).servers[p := CoarseServer(s.servers[p].(phase := phase))])
  {
    assert Coarse(WithPhase(s, p, phase), board).servers
        == Coarse(s, board).servers[p := CoarseServer(s.servers[p].(phase := phase))];
  }

  /** The grant of line 184 and the finish are single steps in both models. */
  lemma TakeAndFinishAgree(s: State, m: Move, record: B.Record, board: seq<B.Record>)
    requires WellFormed(s) && |board| == |s.holder| && Enabled(s, m) && (Takes(s, m) || m.Finish?)
    ensures B.WellFormed(Coarse(s, board))
    ensures Takes(s, m) ==> Coarse(Next(s, m), board) == B.Next(Coarse(s, board), B.Take(m.p))
    ensures m.Finish? ==>
              Coarse(Next(s, m), board[s.grants[m.k].slot := record])
              == B.Next(Coarse(s, board), B.Finish(m.p, m.k, record))
  {
    CoarseIsWellFormed(s, board);
    var v := Next(s, m).servers[m.p];
    assert Coarse(Next(s, m), board).servers == Coarse(s, board).servers[m.p := CoarseServer(v)];
  }

  /** A pull without interference comes back to where it began. */
  lemma {:induction false} PullAlone(s: State, p: nat) returns (run: seq<Move>)
    requires Inv(s) && p < |s.servers| && s.servers[p].phase.Pulling?
    ensures IsRun(s, run, WithPhase(s, p, Idle)) && Alone(run, p)
    decreases |s.holder| - s.servers[p].phase.i
  {
    var v, n := s.servers[p], |s.holder|;
    var next := Next(s, Advance(p));
    if v.phase.i == n {
      run := [Advance(p)];
      assert IsRun(next, [], next) && run[1..] == [];
    } else {
      var first := PullStep(s, p);
      var mid := WithPhase(s, p, Pulling(v.phase.i + 1));
      InvAlongRun(s, first, mid);
      var rest := PullAlone(mid, p);
      assert WithPhase(mid, p, Idle) == WithPhase(s, p, Idle);
      RunsCompose(s, first, mid, rest, WithPhase(s, p, Idle));
      run := first + rest;
    }
  }

  lemma PullStep(s: State, p: nat) returns (run: seq<Move>)
    requires Inv(s) && p < |s.servers| && s.servers[p].phase.Pulling? && s.servers[p].phase.i < |s.holder|
    ensures IsRun(s, run, WithPhase(s, p, Pulling(s.servers[p].phase.i + 1))) && Alone(run, p)
  {
    var v := s.servers[p];
    var i := v.phase.i;
    assert HolderAt(s, i);
    NextIsWellFormed(s, Advance(p));
    var s1 := Next(s, Advance(p));
    if B.Blocked(v.locked, s.holder, p, i) {
      run := [Advance(p)];
      assert IsRun(s1, [], s1) && run[1..] == [];
    } else {
      var s2 := Next(s1, Advance(p));
      assert s2.holder == s.holder;
      assert s2.servers == s.servers[p := v.(phase := Pulling(i + 1))];
      run := [Advance(p), Advance(p)];
      assert IsRun(s1, [Advance(p)], s2);
    }
  }
}
