/**
 The server process of the bulletin board as it updates its table, the record locks and the file in
 place. Each handler is tied to the steps of `BulletinBoard`.
 */
module BulletinServer {
  import opened BulletinBoard

  /** The file all servers share, with its record locks. */
  class RecordFile {
    var board: seq<Record>
    var holder: seq<int>

    constructor (records: seq<Record>)
      ensures board == records && holder == seq(|records|, i => FREE)
    {
      board, holder := records, seq(|records|, i => FREE);
    }

    /** `fcntl` with F_SETLK and F_WRLCK on one record: fails at once if another process holds it. */
    method WriteLock(p: nat, i: nat) returns (ok: bool)
      requires i < |holder|
      modifies this`holder
      ensures ok <==> Grantable(old(holder), p, i)
      ensures holder == WriteLocked(old(holder), p, i)
    {
      ok := holder[i] == FREE || holder[i] == p;
      if ok {
        holder := holder[i := p];
      }
    }

    /** `fcntl` with F_UNLCK: gives back what the process holds and touches no other lock. */
    method Unlock(p: nat, i: nat)
      requires i < |holder|
      modifies this`holder
      ensures holder == Unlocked(old(holder), p, i)
    {
      if holder[i] == p {
        holder := holder[i := FREE];
      }
    }
  }

  class ServerProcess {
    const pid: nat
    const file: RecordFile
    const locked: array<bool>
    var last: nat

    ghost predicate Valid()
      reads this, file, locked
    {
      last < locked.Length == |file.board| == |file.holder|
    }

    /** The process, between two requests, and the file are as s has them. */
    ghost predicate Shows(s: State)
      reads this, file, locked
    {
      && WellFormed(s) && s.board == file.board && s.holder == file.holder
      && pid < |s.servers| && s.servers[pid] == Server(locked[..], last, Idle)
    }

    constructor (pid: nat, file: RecordFile)
      requires 0 < |file.board| == |file.holder|
      ensures Valid() && fresh(locked) && this.pid == pid && this.file == file
      ensures last == |file.board| - 1 && forall i :: 0 <= i < locked.Length ==> !locked[i]
    {
      this.pid, this.file := pid, file;
      locked := new bool[|file.board|](i => false);
      last := |file.board| - 1;
    }

    /** Lines 79-95. */
    method FindAvailable() returns (index: int)
      requires Valid()
      modifies file`holder
      ensures index == Search(locked[..], old(file.holder), pid, last, 0)
      ensures index == -1 <==> forall i :: 0 <= i < locked.Length ==> Blocked(locked[..], old(file.holder), pid, i)
      ensures file.holder == if index == -1 then old(file.holder)
                             else Unlocked(WriteLocked(old(file.holder), pid, index), pid, index)
    {
      var n := locked.Length;
      SearchFailsWhenAllBlocked(locked[..], file.holder, pid, last);
      index := (last + 1) % n;
      var i := 0;
      while i < n
        invariant 0 <= i <= n && index == Slot(last, i, n)
        invariant file.holder == old(file.holder)
        invariant Search(locked[..], file.holder, pid, last, 0) == Search(locked[..], file.holder, pid, last, i)
      {
        NextSlot(last, i, n);
        if locked[index] {
          index := (index + 1) % n;
        } else {
          var ok := file.WriteLock(pid, index);
          if ok {
            file.Unlock(pid, index);
            return;
          }
          index := (index + 1) % n;
        }
        i := i + 1;
      }
      index := -1;
    }

    /** Lines 170-198: -1 stands for the answer "!full", a slot for "!available". */
    method Post(client: nat, ghost s: State) returns (reply: int)
      requires Valid() && Shows(s)
      modifies this`last, locked, file`holder
      ensures Valid() && Shows(AfterPost(s, pid, client))
      ensures reply == -1 <==> forall i :: 0 <= i < |s.board| ==> Blocked(s.servers[pid].locked, s.holder, pid, i)
      ensures reply >= 0 ==> AfterPost(s, pid, client).grants == s.grants + [Grant(pid, client, reply)]
      ensures reply >= 0 ==> last == reply < locked.Length && locked[reply] && file.board == old(file.board)
    {
      NextIsWellFormed(s, Probe(pid, client));
      ghost var s1 := Next(s, Probe(pid, client));
      reply := FindAvailable();
      if reply != -1 {
        assert s1.servers[pid] == Server(locked[..], last, Found(client, reply));
        var _ := file.WriteLock(pid, reply);
        locked[reply] := true;
        last := reply;
        NextIsWellFormed(s1, Take(pid));
      }
    }

    /** Lines 242-261: the client sends back the slot of its grant, which is number k in s. */
    method Finish(slot: nat, record: Record, ghost s: State, ghost k: nat)
      requires Valid() && Shows(s)
      requires k < |s.grants| && s.grants[k].server == pid && s.grants[k].slot == slot
      modifies locked, file
      ensures Valid() && Shows(Next(s, BulletinBoard.Finish(pid, k, record)))
      ensures file.board == old(file.board)[slot := record] && !locked[slot]
    {
      NextIsWellFormed(s, BulletinBoard.Finish(pid, k, record));
      file.board := file.board[slot := record];
      file.Unlock(pid, slot);
      locked[slot] := false;
    }

    /** Lines 205-241: the records sent, and the number in the warning. */
    method Pull(ghost s: State) returns (sent: seq<Record>, numLocked: nat)
      requires Valid() && Shows(s)
      modifies file`holder
      ensures Valid() && Shows(Next(s, BulletinBoard.Pull(pid)))
      ensures sent == Sent(locked[..], s.holder, s.board, pid, |s.board|)
      ensures numLocked == KeptFrom(locked[..], s.holder, pid, |s.board|)
    {
      NextIsWellFormed(s, BulletinBoard.Pull(pid));
      var bulletin := file.board;
      sent, numLocked := [], 0;
      var i := 0;
      while i < locked.Length
        invariant 0 <= i <= locked.Length && |file.holder| == |s.holder|
        invariant forall x :: 0 <= x < i ==> file.holder[x] == AfterPull(locked[..], s.holder, pid)[x]
        invariant forall x :: i <= x < |s.holder| ==> file.holder[x] == s.holder[x]
        invariant sent == Sent(locked[..], s.holder, s.board, pid, i)
        invariant numLocked == KeptFrom(locked[..], s.holder, pid, i)
      {
        var open := TryLock(i);
        if !open {
          numLocked := numLocked + 1;
        } else if bulletin[i].from != "" {
          sent := sent + [bulletin[i]];
        }
        i := i + 1;
      }
      assert file.holder == AfterPull(locked[..], s.holder, pid);
    }

    /** Lines 216-220: the lock of a slot that is not blocked is taken and given back. */
    method TryLock(i: nat) returns (open: bool)
      requires Valid() && i < locked.Length
      modifies file`holder
      ensures open <==> !Blocked(locked[..], old(file.holder), pid, i)
      ensures file.holder == if open then old(file.holder)[i := FREE] else old(file.holder)
    {
      open := false;
      if !locked[i] {
        open := file.WriteLock(pid, i);
        if open {
          file.Unlock(pid, i);
        }
      }
    }
  }
}
