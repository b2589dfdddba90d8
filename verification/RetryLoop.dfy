/** The loop in which every operation of the server waits for its queue: while the server runs and the deadline is
    ahead, look the queue up and try to get its lock. */
module RetryLoop {

  /** What one round meets: is the server running, has the deadline passed, is the queue there, and is its lock
      obtained. */
  datatype Round = Round(running: bool, late: bool, found: bool, locked: bool)

  datatype Decision = Stopped | TooLate | Missing | Entered | Undecided

  predicate Retries(round: Round) {
    round.running && !round.late && round.found && !round.locked
  }

  function Decide(rounds: seq<Round>): Decision {
    if rounds == [] then Undecided
    else if !rounds[0].running then Stopped
    else if rounds[0].late then TooLate
    else if !rounds[0].found then Missing
    else if rounds[0].locked then Entered
    else Decide(rounds[1..])
  }

  /** What a round means on its own. */
  ghost predicate Means(round: Round, d: Decision) {
    match d
    case Stopped => !round.running
    case TooLate => round.running && round.late
    case Missing => round.running && !round.late && !round.found
    case Entered => round == Round(true, false, true, true)
    case Undecided => Retries(round)
  }

  /** Round `i` is the first that is not a failed try-lock. */
  ghost predicate DecidedAt(rounds: seq<Round>, i: int) {
    0 <= i < |rounds| && !Retries(rounds[i]) && forall j :: 0 <= j < i ==> Retries(rounds[j])
  }

  lemma DecidedLater(rounds: seq<Round>, i: nat)
    requires rounds != [] && Retries(rounds[0])
    ensures DecidedAt(rounds, i + 1) <==> DecidedAt(rounds[1..], i)
    ensures !DecidedAt(rounds, 0)
  {
    assert rounds == [rounds[0]] + rounds[1..];
    if DecidedAt(rounds, i + 1) {
      forall j | 0 <= j < i ensures Retries(rounds[1..][j]) {
        assert Retries(rounds[j + 1]);
      }
    }
    if DecidedAt(rounds[1..], i) {
      forall j | 0 <= j < i + 1 ensures Retries(rounds[j]) {
        assert j > 0 ==> rounds[j] == rounds[1..][j - 1];
      }
    }
  }

  /** The loop is decided by its first round that is not a failed try-lock, and by nothing else; it is undecided
      exactly as long as every round was one. */
  lemma {:induction false} DecidedByFirst(rounds: seq<Round>, d: Decision)
    ensures d != Undecided ==> (Decide(rounds) == d <==> exists i :: DecidedAt(rounds, i) && Means(rounds[i], d))
    ensures Decide(rounds) == Undecided <==> forall j :: 0 <= j < |rounds| ==> Retries(rounds[j])
  {
    if rounds != [] && Retries(rounds[0]) {
      DecidedByFirst(rounds[1..], d);
      assert rounds == [rounds[0]] + rounds[1..];
      if d != Undecided && Decide(rounds) == d {
        var i :| DecidedAt(rounds[1..], i) && Means(rounds[1..][i], d);
        DecidedLater(rounds, i);
        assert DecidedAt(rounds, i + 1) && rounds[i + 1] == rounds[1..][i];
      }
      if i :| DecidedAt(rounds, i) && Means(rounds[i], d) {
        DecidedLater(rounds, if i > 0 then i - 1 else 0);
        assert DecidedAt(rounds[1..], i - 1) && rounds[1..][i - 1] == rounds[i];
      }
    } else if rounds != [] {
      assert DecidedAt(rounds, 0);
      assert forall i :: DecidedAt(rounds, i) ==> i == 0;
    }
  }

  /** The section is entered exactly if that round is running, in time, and has the queue found and locked. */
  lemma EnteredExactly(rounds: seq<Round>)
    ensures Decide(rounds) == Entered <==> exists i :: DecidedAt(rounds, i) && rounds[i] == Round(true, false, true, true)
  {
    DecidedByFirst(rounds, Entered);
    if i :| DecidedAt(rounds, i) && rounds[i] == Round(true, false, true, true) {
      assert Means(rounds[i], Entered);
    }
  }
}
