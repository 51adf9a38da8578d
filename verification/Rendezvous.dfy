/**
 The meeting of the two services of an exchange over their two FIFOs (the function `exchanges`).

 Opening a FIFO blocks until the other end is being opened too, so an open is two turns: to arrive,
 and to pass once the partner has arrived. `turnsA` and `turnsB` count the turns of the service
 named first and of the service named second.
 */
module Rendezvous {

  /** "service has acquired a new secret, value: secret". */
  datatype Report = Report(service: string, secret: nat)

  datatype Fifos = Fifos(
    turnsA: nat,
    turnsB: nat,
    toB: seq<nat>,         // content of the first FIFO
    toA: seq<nat>,         // content of the second FIFO
    tmp: nat,              // tmp_secret of the first service
    reports: seq<Report>)

  const CLOSED := Fifos(0, 0, [], [], 0, [])

  const TURNS_A := 8
  const TURNS_B := 7

  /** Lines 231-238: open 1 for writing (0, 1), open 2 for reading (2, 3), read (4), report (5), write (6), keep (7). */
  predicate CanTurnA(f: Fifos) {
    match f.turnsA
    case 1 => f.turnsB >= 1
    case 3 => f.turnsB >= 3
    case 4 => f.toA != []
    case _ => true
  }

  function TurnA(f: Fifos, name: string, secret: nat): (Fifos, nat)
    requires CanTurnA(f)
  {
    var f' := f.(turnsA := f.turnsA + 1);
    match f.turnsA
    case 4 => (f'.(tmp := f.toA[0], toA := f.toA[1..]), secret)
    case 5 => (f'.(reports := f.reports + [Report(name, f.tmp)]), secret)
    case 6 => (f'.(toB := f.toB + [secret]), secret)
    case 7 => (f', f.tmp)
    case _ => (f', secret)
  }

  /** Lines 244-249: open 1 for reading (0, 1), open 2 for writing (2, 3), write (4), read (5), report (6). */
  predicate CanTurnB(f: Fifos) {
    match f.turnsB
    case 1 => f.turnsA >= 1
    case 3 => f.turnsA >= 3
    case 5 => f.toB != []
    case _ => true
  }

  function TurnB(f: Fifos, name: string, secret: nat): (Fifos, nat)
    requires CanTurnB(f)
  {
    var f' := f.(turnsB := f.turnsB + 1);
    match f.turnsB
    case 4 => (f'.(toA := f.toA + [secret]), secret)
    case 5 => (f'.(toB := f.toB[1..]), f.toB[0])
    case 6 => (f'.(reports := f.reports + [Report(name, secret)]), secret)
    case _ => (f', secret)
  }

  /** The meeting of services a and b, which started with secrets sa and sb and now have currentA and currentB. */
  ghost predicate Meeting(f: Fifos, a: string, sa: nat, currentA: nat, b: string, sb: nat, currentB: nat) {
    && f.turnsA <= TURNS_A && f.turnsB <= TURNS_B
    && (f.turnsA >= 2 ==> f.turnsB >= 1) && (f.turnsB >= 2 ==> f.turnsA >= 1)
    && (f.turnsA >= 4 ==> f.turnsB >= 3) && (f.turnsB >= 4 ==> f.turnsA >= 3)
    && (f.turnsA >= 5 ==> f.turnsB >= 5) && (f.turnsB >= 6 ==> f.turnsA >= 7)
    && f.toA == (if f.turnsB >= 5 && f.turnsA < 5 then [sb] else [])
    && f.toB == (if f.turnsA >= 7 && f.turnsB < 6 then [sa] else [])
    && (f.turnsA >= 5 ==> f.tmp == sb)
    && currentA == (if f.turnsA >= 8 then sb else sa)
    && currentB == (if f.turnsB >= 6 then sa else sb)
    && f.reports == (if f.turnsA >= 6 then [Report(a, sb)] else []) + (if f.turnsB >= 7 then [Report(b, sa)] else [])
  }

  lemma TurnAKeepsMeeting(f: Fifos, a: string, sa: nat, currentA: nat, b: string, sb: nat, currentB: nat)
    requires Meeting(f, a, sa, currentA, b, sb, currentB) && f.turnsA < TURNS_A && CanTurnA(f)
    ensures var (f', secret) := TurnA(f, a, currentA); Meeting(f', a, sa, secret, b, sb, currentB)
  {
  }

  lemma TurnBKeepsMeeting(f: Fifos, a: string, sa: nat, currentA: nat, b: string, sb: nat, currentB: nat)
    requires Meeting(f, a, sa, currentA, b, sb, currentB) && f.turnsB < TURNS_B && CanTurnB(f)
    ensures var (f', secret) := TurnB(f, b, currentB); Meeting(f', a, sa, currentA, b, sb, secret)
  {
  }

  /** The opens are in matching order and the transfers alternate, so the two never wait for each other. */
  lemma NeverBothWait(f: Fifos, a: string, sa: nat, currentA: nat, b: string, sb: nat, currentB: nat)
    requires Meeting(f, a, sa, currentA, b, sb, currentB)
    requires f.turnsA < TURNS_A || f.turnsB < TURNS_B
    ensures (f.turnsA < TURNS_A && CanTurnA(f)) || (f.turnsB < TURNS_B && CanTurnB(f))
  {
  }

  /** The second service never reports before the first. */
  lemma ReportsInOrder(f: Fifos, a: string, sa: nat, currentA: nat, b: string, sb: nat, currentB: nat)
    requires Meeting(f, a, sa, currentA, b, sb, currentB)
    ensures f.reports <= [Report(a, sb), Report(b, sa)]
  {
  }
}
