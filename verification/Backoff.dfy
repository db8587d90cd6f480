/** The reconnect loop of an IRC connection and its backoff (internal/irc/connection.go).
    Durations are in nanoseconds, as in time.Duration. */
module Backoff {

  const SECOND: nat := 1_000_000_000
  const INITIAL_BACKOFF: nat := SECOND
  const MAX_BACKOFF: nat := 60 * SECOND
  const STABLE_CONNECTION: nat := 30 * SECOND

  function NextBackoff(cur: nat, max: nat): nat {
    if cur * 2 > max then max else cur * 2
  }

  function BackoffAfterDisconnect(cur: nat, connectedFor: nat): nat {
    if connectedFor >= STABLE_CONNECTION then INITIAL_BACKOFF else NextBackoff(cur, MAX_BACKOFF)
  }

  /** One turn of the loop, as the environment decides it: connecting takes a while and then is
      refused, or the connection stays up for some time. */
  datatype Attempt = Refused(dialing: nat) | Lasted(dialing: nat, uptime: nat)

  predicate Stable(a: Attempt) {
    a.Lasted? && a.uptime >= STABLE_CONNECTION
  }

  /** How many unstable attempts have come in a row, since the start or the last stable one. */
  function Streak(attempts: seq<Attempt>): nat {
    if attempts == [] || Stable(attempts[|attempts| - 1]) then 0
    else 1 + Streak(attempts[..|attempts| - 1])
  }

  function Pow2(k: nat): nat {
    if k == 0 then 1 else 2 * Pow2(k - 1)
  }

  /** min(60, 2^k) seconds. */
  function Ladder(k: nat): nat {
    if Pow2(k) < 60 then Pow2(k) * SECOND else MAX_BACKOFF
  }

  lemma LadderStep(k: nat)
    ensures NextBackoff(Ladder(k), MAX_BACKOFF) == Ladder(k + 1)
    ensures SECOND <= Ladder(k) <= Ladder(k + 1) <= MAX_BACKOFF
  {
    assert Pow2(k + 1) == 2 * Pow2(k);
    PowPositive(k);
  }

  lemma {:induction false} PowPositive(k: nat)
    ensures Pow2(k) >= 1
  {
    if k > 0 {
      PowPositive(k - 1);
    }
  }

  /** What the loop sleeps after an attempt that follows a streak of k unstable ones. */
  function Sleep(k: nat, a: Attempt): nat {
    if a.Refused? then Ladder(k)
    else if Stable(a) then 0
    else Ladder(k + 1)
  }

  function Busy(a: Attempt): nat {
    if a.Refused? then a.dialing else a.dialing + a.uptime
  }

  /** When each attempt begins. */
  function StartOf(attempts: seq<Attempt>, i: nat, t0: nat): nat
    requires i <= |attempts|
  {
    if i == 0 then t0
    else StartOf(attempts, i - 1, t0) + Busy(attempts[i - 1]) + Sleep(Streak(attempts[..i - 1]), attempts[i - 1])
  }

  lemma TurnFacts(attempts: seq<Attempt>, i: nat, t0: nat)
    requires i < |attempts|
    ensures
      var a, k := attempts[i], Streak(attempts[..i]);
      && StartOf(attempts, i + 1, t0) == StartOf(attempts, i, t0) + Busy(a) + Sleep(k, a)
      && Streak(attempts[..i + 1]) == (if Stable(a) then 0 else k + 1)
  {
    assert attempts[..i + 1][..i] == attempts[..i];
  }

  lemma BeforeTheLoop(attempts: seq<Attempt>, t0: nat)
    ensures INITIAL_BACKOFF == Ladder(0) && Streak([]) == 0 && StartOf(attempts, 0, t0) == t0
  {}

  lemma LadderInSeconds(k: nat)
    ensures Ladder(0) == 1_000_000_000 && Ladder(1) == 2_000_000_000 && Ladder(2) == 4_000_000_000
    ensures Ladder(3) == 8_000_000_000 && Ladder(4) == 16_000_000_000 && Ladder(5) == 32_000_000_000
    ensures k >= 6 ==> Ladder(k) == 60_000_000_000
  {
    assert Pow2(2) == 4;
    assert Pow2(4) == 16;
    assert Pow2(6) == 64;
    if k > 6 {
      LadderInSeconds(k - 1);
      LadderStep(k - 1);
    }
  }

  /** One attempt, with the backoff before it and after it, in nanoseconds. A refusal sleeps the backoff
      and doubles it; a connection that has lasted thirty seconds resets it to one second and sleeps
      nothing; any other doubles it first and sleeps that. It never exceeds a minute. */
  lemma Turn(attempts: seq<Attempt>, i: nat, t0: nat)
    requires i < |attempts|
    ensures Ladder(Streak([])) == 1_000_000_000
    ensures
      var a := attempts[i];
      var before, after := Ladder(Streak(attempts[..i])), Ladder(Streak(attempts[..i + 1]));
      var doubled := if 2 * before > 60_000_000_000 then 60_000_000_000 else 2 * before;
      var slept := Sleep(Streak(attempts[..i]), a);
      && (a.Refused? ==> slept == before && after == doubled)
      && (a.Lasted? && a.uptime >= 30_000_000_000 ==> slept == 0 && after == 1_000_000_000)
      && (a.Lasted? && a.uptime < 30_000_000_000 ==> slept == after == doubled)
      && StartOf(attempts, i + 1, t0)
         == StartOf(attempts, i, t0) + a.dialing + (if a.Lasted? then a.uptime else 0) + slept
      && StartOf(attempts, 0, t0) == t0
  {
    hide StartOf, Streak, Ladder;
    BeforeTheLoop(attempts, t0);
    TurnFacts(attempts, i, t0);
    LadderInSeconds(0);
    LadderStep(Streak(attempts[..i]));
  }

  /** Where cancelling the context finds the loop, after its last whole attempt: between attempts,
      or in the course of one more, and how far that has come. */
  datatype Cancel =
    | BetweenAttempts
    | WhileDialing(dialed: nat)
    | WhileUp(dialing: nat, up: nat)
    | WhileSleeping(last: Attempt, slept: nat)

  function Least(a: nat, b: nat): nat {
    if a < b then a else b
  }

  /** What is slept before the cancellation, at most the whole backoff. */
  function SleptAtCancel(k: nat, c: Cancel): nat {
    if c.WhileSleeping? then Least(c.slept, Sleep(k, c.last)) else 0
  }

  /** The time from the start of the attempt that is cut short to the end of the loop. */
  function Spent(k: nat, c: Cancel): nat {
    match c
    case BetweenAttempts => 0
    case WhileDialing(dialed) => dialed
    case WhileUp(dialing, up) => dialing + up
    case WhileSleeping(last, _) => Busy(last) + SleptAtCancel(k, c)
  }

  datatype Log = Log(starts: seq<nat>, sleeps: seq<nat>, backoff: nat, ended: nat)

  /** The loop of Run up to its end: its clock readings at each attempt, its sleeps, the backoff
      after the whole attempts, and when it ends. After k unstable attempts in a row the backoff is
      min(60, 2^k) seconds. */
  method Run(attempts: seq<Attempt>, cancel: Cancel, t0: nat) returns (log: Log)
    ensures |log.starts| == |attempts| + if cancel.BetweenAttempts? then 0 else 1
    ensures |log.sleeps| == |attempts| + if cancel.WhileSleeping? then 1 else 0
    ensures forall i :: 0 <= i < |log.starts| ==> log.starts[i] == StartOf(attempts, i, t0)
    ensures forall i :: 0 <= i < |attempts| ==> log.sleeps[i] == Sleep(Streak(attempts[..i]), attempts[i])
    ensures cancel.WhileSleeping? ==> log.sleeps[|attempts|] == SleptAtCancel(Streak(attempts), cancel)
    ensures log.backoff == Ladder(Streak(attempts))
    ensures
      var t := StartOf(attempts, |attempts|, t0);
      && (cancel.BetweenAttempts? ==> log.ended == t)
      && (cancel.WhileDialing? ==> log.ended == t + cancel.dialed)
      && (cancel.WhileUp? ==> log.ended == t + cancel.dialing + cancel.up)
      && (cancel.WhileSleeping? ==>
            && log.sleeps[|attempts|] <= cancel.slept
            && log.sleeps[|attempts|] <= Sleep(Streak(attempts), cancel.last)
            && (log.sleeps[|attempts|] == cancel.slept
                || log.sleeps[|attempts|] == Sleep(Streak(attempts), cancel.last))
            && log.ended == t + cancel.last.dialing + (if cancel.last.Lasted? then cancel.last.uptime else 0)
                            + log.sleeps[|attempts|])
  {
    hide StartOf, Streak, Ladder;
    assert INITIAL_BACKOFF == Ladder(0) && Streak([]) == 0 && StartOf(attempts, 0, t0) == t0 by {
      BeforeTheLoop(attempts, t0);
    }
    var starts: seq<nat>, sleeps: seq<nat> := [], [];
    var backoff := INITIAL_BACKOFF;
    var now := t0;
    assert attempts[..0] == [];
    for i := 0 to |attempts|
      invariant |starts| == |sleeps| == i
      invariant now == StartOf(attempts, i, t0)
      invariant backoff == Ladder(Streak(attempts[..i]))
      invariant forall j :: 0 <= j < i ==> starts[j] == StartOf(attempts, j, t0)
      invariant forall j :: 0 <= j < i ==> sleeps[j] == Sleep(Streak(attempts[..j]), attempts[j])
    {
      var a := attempts[i];
      ghost var k := Streak(attempts[..i]);
      TurnFacts(attempts, i, t0);
      LadderStep(k);
      starts := starts + [now];
      now := now + a.dialing;
      if a.Refused? {
        sleeps := sleeps + [backoff];
        now := now + backoff;
        backoff := NextBackoff(backoff, MAX_BACKOFF);
        continue;
      }
      now := now + a.uptime;
      backoff := BackoffAfterDisconnect(backoff, a.uptime);
      if a.uptime >= STABLE_CONNECTION {
        sleeps := sleeps + [0];
        continue;
      }
      sleeps := sleeps + [backoff];
      now := now + backoff;
    }
    assert attempts[..|attempts|] == attempts;
    LadderStep(Streak(attempts));
    log := CutShort(Log(starts, sleeps, backoff, now), cancel, Streak(attempts));
  }

  /** The attempt in the course of which the context is cancelled. */
  method CutShort(before: Log, cancel: Cancel, ghost k: nat) returns (log: Log)
    requires before.backoff == Ladder(k) && NextBackoff(Ladder(k), MAX_BACKOFF) == Ladder(k + 1)
    ensures log.starts == before.starts + if cancel.BetweenAttempts? then [] else [before.ended]
    ensures log.sleeps == before.sleeps + if cancel.WhileSleeping? then [SleptAtCancel(k, cancel)] else []
    ensures log.backoff == before.backoff && log.ended == before.ended + Spent(k, cancel)
  {
    hide Ladder;
    log := before;
    if cancel.BetweenAttempts? {
      return;
    }
    log := log.(starts := log.starts + [log.ended]);
    match cancel {
      case WhileDialing(dialed) =>
        log := log.(ended := log.ended + dialed);
      case WhileUp(dialing, up) =>
        log := log.(ended := log.ended + dialing + up);
      case WhileSleeping(last, slept) =>
        var full := before.backoff;
        if last.Lasted? {
          full := if last.uptime >= STABLE_CONNECTION then 0 else BackoffAfterDisconnect(full, last.uptime);
        }
        var nap := if slept < full then slept else full;
        log := log.(sleeps := log.sleeps + [nap], ended := log.ended + Busy(last) + nap);
    }
  }

  // ---------- how much the loop sleeps ----------

  /** The sleeps from attempt i up to attempt j. */
  function Slept(attempts: seq<Attempt>, i: nat, j: nat): nat
    requires i <= j <= |attempts|
  {
    if i == j then 0
    else Slept(attempts, i, j - 1) + Sleep(Streak(attempts[..j - 1]), attempts[j - 1])
  }

  function LadderSum(n: nat): nat {
    if n == 0 then 0 else LadderSum(n - 1) + Ladder(n - 1)
  }

  lemma {:induction false} LadderMonotone(k: nat, m: nat)
    requires k <= m
    ensures Ladder(k) <= Ladder(m)
  {
    if k < m {
      LadderMonotone(k, m - 1);
      LadderStep(m - 1);
    }
  }

  lemma {:induction false} StreakGrows(attempts: seq<Attempt>, i: nat, j: nat)
    requires i <= j <= |attempts|
    requires forall k :: i <= k < j ==> !Stable(attempts[k])
    ensures Streak(attempts[..j]) == Streak(attempts[..i]) + (j - i)
  {
    if i < j {
      StreakGrows(attempts, i, j - 1);
      assert attempts[..j][..j - 1] == attempts[..j - 1];
    }
  }

  /** Any n consecutive unstable attempts sleep at least the first n rungs of the ladder, even
      if the server accepts every connection and drops it at once. */
  lemma {:induction false} UnstableAttemptsSleep(attempts: seq<Attempt>, i: nat, j: nat)
    requires i <= j <= |attempts|
    requires forall k :: i <= k < j ==> !Stable(attempts[k])
    ensures Slept(attempts, i, j) >= LadderSum(j - i)
  {
    if i < j {
      UnstableAttemptsSleep(attempts, i, j - 1);
      StreakGrows(attempts, i, j - 1);
      var k := Streak(attempts[..j - 1]);
      LadderMonotone(j - 1 - i, k);
      LadderStep(k);
    }
  }

  // ---------- how often it connects ----------

  lemma StartsApart(attempts: seq<Attempt>, i: nat, t0: nat)
    requires i < |attempts|
    ensures StartOf(attempts, i + 1, t0) >= StartOf(attempts, i, t0) + SECOND
  {
    LadderStep(Streak(attempts[..i]));
  }

  lemma {:induction false} StartsFarApart(attempts: seq<Attempt>, i: nat, j: nat, t0: nat)
    requires i <= j <= |attempts|
    ensures StartOf(attempts, j, t0) >= StartOf(attempts, i, t0) + (j - i) * SECOND
  {
    if i < j {
      StartsFarApart(attempts, i, j - 1, t0);
      StartsApart(attempts, j - 1, t0);
    }
  }

  /** Whatever the server does, a window of T seconds sees at most T + 1 connect attempts, the one
      about to begin included. */
  lemma AttemptRate(attempts: seq<Attempt>, t0: nat, i: nat, j: nat, from: nat, seconds: nat)
    requires i <= j <= |attempts|
    requires from <= StartOf(attempts, i, t0) && StartOf(attempts, j, t0) <= from + seconds * 1_000_000_000
    ensures j - i + 1 <= seconds + 1
  {
    StartsFarApart(attempts, i, j, t0);
  }
}
