/** The sliding-window login lockout kept in a pruned in-process dictionary. */
module LoginLockout {
  const LOGIN_MAX_ATTEMPTS: nat := 5
  const LOGIN_WINDOW_SECONDS: real := 300.0

  /** The attempts still inside the window at `now`. */
  function Fresh(attempts: seq<real>, now: real): seq<real> {
    if attempts == [] then []
    else
      var last := attempts[|attempts| - 1];
      Fresh(attempts[..|attempts| - 1], now) + (if now - last < LOGIN_WINDOW_SECONDS then [last] else [])
  }

  function Lookup(attempts: map<string, seq<real>>, key: string): seq<real> {
    if key in attempts then attempts[key] else []
  }

  /** One call of the login route: the clock is read for the check and again to record a failure. */
  datatype Attempt = Attempt(client: string, checkedAt: real, recordedAt: real, valid: bool)

  datatype Outcome = LockedOut | Rejected | Accepted

  class LoginGuard {
    var attempts: map<string, seq<real>>
    ghost var trace: seq<Attempt>

    /** The pruned dictionary belongs to the logins seen so far, whose clock readings never decrease. */
    ghost predicate Valid()
      reads this
    {
      Monotone(trace) && forall c :: Lookup(attempts, c) == Stored(trace, c)
    }

    constructor ()
      ensures Valid() && trace == []
    {
      attempts, trace := map[], [];
    }

    method PruneAttempts(key: string, now: real) returns (kept: seq<real>)
      modifies `attempts
      ensures kept == Fresh(Lookup(old(attempts), key), now)
      ensures attempts == old(attempts)[key := kept]
    {
      kept := [];
      var known := Lookup(attempts, key);
      for i := 0 to |known|
        invariant kept == Fresh(known[..i], now)
      {
        assert known[..i + 1][..i] == known[..i];
        if now - known[i] < LOGIN_WINDOW_SECONDS {
          kept := kept + [known[i]];
        }
      }
      assert known[..|known|] == known;
      attempts := attempts[key := kept];
    }

    method RegisterFailedLogin(key: string, now: real)
      modifies `attempts
      ensures attempts == old(attempts)[key := Fresh(Lookup(old(attempts), key), now) + [now]]
    {
      var kept := PruneAttempts(key, now);
      attempts := attempts[key := kept + [now]];
    }

    /** A login is refused exactly when the full failure history holds five attempts inside the window. */
    method Login(a: Attempt) returns (outcome: Outcome)
      requires Valid() && Monotone(trace + [a])
      modifies this
      ensures Valid() && trace == old(trace) + [a]
      ensures outcome.LockedOut? <==>
              |Fresh(Failures(old(trace), a.client), a.checkedAt)| >= LOGIN_MAX_ATTEMPTS
      ensures outcome.Accepted? <==> !outcome.LockedOut? && a.valid
      ensures forall c :: c != a.client ==> Lookup(attempts, c) == Lookup(old(attempts), c)
    {
      CheckAgrees(trace, a);
      StoredAfter(trace, a);
      hide Monotone;
      trace := trace + [a];
      var kept := PruneAttempts(a.client, a.checkedAt);
      if |kept| >= LOGIN_MAX_ATTEMPTS {
        return LockedOut;
      }
      if !a.valid {
        RegisterFailedLogin(a.client, a.recordedAt);
        return Rejected;
      }
      return Accepted;
    }
  }

  /** What the dictionary holds for a client after a sequence of logins: only the pruned list survives. */
  ghost function Stored(trace: seq<Attempt>, client: string): seq<real> {
    if trace == [] then []
    else
      var a := trace[|trace| - 1];
      var known := Stored(trace[..|trace| - 1], client);
      if a.client != client then known
      else
        var kept := Fresh(known, a.checkedAt);
        if |kept| >= LOGIN_MAX_ATTEMPTS || a.valid then kept
        else Fresh(kept, a.recordedAt) + [a.recordedAt]
  }

  /** Every failure ever recorded for a client, nothing pruned. */
  ghost function Failures(trace: seq<Attempt>, client: string): seq<real> {
    if trace == [] then []
    else
      var a := trace[|trace| - 1];
      var known := Failures(trace[..|trace| - 1], client);
      if a.client == client && !a.valid && |Fresh(known, a.checkedAt)| < LOGIN_MAX_ATTEMPTS
      then known + [a.recordedAt]
      else known
  }

  /** The check that a login makes on the stored list is a check of the full history. */
  lemma CheckAgrees(trace: seq<Attempt>, a: Attempt)
    requires Monotone(trace + [a])
    ensures Fresh(Stored(trace, a.client), a.checkedAt) == Fresh(Failures(trace, a.client), a.checkedAt)
  {
    assert (trace + [a])[|trace|] == a;
    assert forall i :: 0 <= i < |trace| ==> trace[i] == (trace + [a])[i];
    PrunedHistory(trace, a.client, a.checkedAt);
  }

  /** A login touches the list of its own client only: pruned, and extended if it fails. */
  lemma StoredAfter(trace: seq<Attempt>, a: Attempt)
    ensures var kept := Fresh(Stored(trace, a.client), a.checkedAt);
            Stored(trace + [a], a.client)
            == if |kept| >= LOGIN_MAX_ATTEMPTS || a.valid then kept else Fresh(kept, a.recordedAt) + [a.recordedAt]
    ensures forall c :: c != a.client ==> Stored(trace + [a], c) == Stored(trace, c)
  {
    assert (trace + [a])[..|trace|] == trace;
  }

  ghost predicate Monotone(trace: seq<Attempt>) {
    && (forall i :: 0 <= i < |trace| ==> trace[i].checkedAt <= trace[i].recordedAt)
    && (forall i, j :: 0 <= i < j < |trace| ==> trace[i].recordedAt <= trace[j].checkedAt)
  }

  lemma {:induction false} FreshTwice(attempts: seq<real>, earlier: real, now: real)
    requires earlier <= now
    ensures Fresh(Fresh(attempts, earlier), now) == Fresh(attempts, now)
  {
    if attempts != [] {
      var rest, last := attempts[..|attempts| - 1], attempts[|attempts| - 1];
      FreshTwice(rest, earlier, now);
      assert Fresh(rest, earlier) + [] == Fresh(rest, earlier);
      assert Fresh(rest, now) + [] == Fresh(rest, now);
      if earlier - last < LOGIN_WINDOW_SECONDS {
        FreshAppend(Fresh(rest, earlier), last, now);
      }
    }
  }

  lemma FreshAppend(attempts: seq<real>, t: real, now: real)
    ensures Fresh(attempts + [t], now)
         == Fresh(attempts, now) + (if now - t < LOGIN_WINDOW_SECONDS then [t] else [])
  {
    assert (attempts + [t])[..|attempts|] == attempts;
  }

  /** Pruning loses nothing a later check would count. */
  lemma {:induction false} PrunedHistory(trace: seq<Attempt>, client: string, now: real)
    requires Monotone(trace)
    requires forall i :: 0 <= i < |trace| ==> trace[i].recordedAt <= now
    ensures Fresh(Stored(trace, client), now) == Fresh(Failures(trace, client), now)
  {
    if trace != [] {
      var before, a := trace[..|trace| - 1], trace[|trace| - 1];
      if a.client != client {
        PrunedHistory(before, client, now);
      } else {
        PrunedHistory(before, client, a.checkedAt);
        PrunedHistory(before, client, now);
        var known := Stored(before, client);
        var kept := Fresh(known, a.checkedAt);
        FreshTwice(known, a.checkedAt, now);
        if |kept| < LOGIN_MAX_ATTEMPTS && !a.valid {
          FreshTwice(kept, a.recordedAt, now);
          FreshAppend(Fresh(kept, a.recordedAt), a.recordedAt, now);
          FreshAppend(Failures(before, client), a.recordedAt, now);
        }
      }
    }
  }

  ghost predicate Sorted(times: seq<real>) {
    forall i, j :: 0 <= i < j < |times| ==> times[i] <= times[j]
  }

  /** If the n-th newest of a sorted history is fresh, so are all newer ones. */
  lemma {:induction false} FreshSuffix(times: seq<real>, n: nat, now: real)
    requires Sorted(times) && n <= |times|
    requires n > 0 ==> now - times[|times| - n] < LOGIN_WINDOW_SECONDS
    ensures |Fresh(times, now)| >= n
  {
    if n > 0 {
      var rest := times[..|times| - 1];
      FreshSuffix(rest, n - 1, now);
    }
  }

  /** Recorded failures are times of the trace, in order. */
  lemma {:induction false} FailuresInOrder(trace: seq<Attempt>, client: string, now: real)
    requires Monotone(trace)
    requires forall i :: 0 <= i < |trace| ==> trace[i].recordedAt <= now
    ensures Sorted(Failures(trace, client))
    ensures forall i :: 0 <= i < |Failures(trace, client)| ==> Failures(trace, client)[i] <= now
  {
    if trace != [] {
      var before, a := trace[..|trace| - 1], trace[|trace| - 1];
      FailuresInOrder(before, client, a.checkedAt);
    }
  }

  /** Any two failures with at least four others between them are a full window apart. */
  ghost predicate Spaced(times: seq<real>) {
    forall i, j :: 0 <= i < j < |times| && j - i >= LOGIN_MAX_ATTEMPTS ==> times[j] - times[i] >= LOGIN_WINDOW_SECONDS
  }

  lemma SpacedAppend(times: seq<real>, now: real, t: real)
    requires Spaced(times) && Sorted(times) && now <= t
    requires |Fresh(times, now)| < LOGIN_MAX_ATTEMPTS
    ensures Spaced(times + [t])
  {
    var n := |times|;
    if n >= 5 {
      if now - times[n - 5] < LOGIN_WINDOW_SECONDS {
        FreshSuffix(times, 5, now);
      }
      assert t - times[n - 5] >= 300.0;
      forall i | 0 <= i <= n - 5 ensures t - times[i] >= 300.0 {
        assert times[i] <= times[n - 5];
      }
    }
  }

  /** Whatever the logins, a client's (i+5)-th recorded failure comes at least 300 s after its i-th. */
  lemma {:induction false} FailuresAreSpaced(trace: seq<Attempt>, client: string)
    requires Monotone(trace)
    ensures Spaced(Failures(trace, client))
  {
    if trace != [] {
      var before, a := trace[..|trace| - 1], trace[|trace| - 1];
      FailuresAreSpaced(before, client);
      FailuresInOrder(before, client, a.checkedAt);
      if Failures(trace, client) != Failures(before, client) {
        SpacedAppend(Failures(before, client), a.checkedAt, a.recordedAt);
      }
    }
  }

  // ----- what is counted -----

  /** The attempts of the last 300 seconds, each as often as it was made. */
  lemma {:induction false} FreshExact(attempts: seq<real>, now: real, t: real)
    ensures multiset(Fresh(attempts, now))[t] == if now - t < 300.0 then multiset(attempts)[t] else 0
  {
    if attempts != [] {
      var rest, last := attempts[..|attempts| - 1], attempts[|attempts| - 1];
      FreshExact(rest, now, t);
      assert attempts == rest + [last];
    }
  }

  /** Login `i` is one of the client with a wrong password, made with fewer than five fresh failures behind it. */
  ghost predicate FailsAt(trace: seq<Attempt>, client: string, i: nat) {
    && i < |trace| && trace[i].client == client && !trace[i].valid
    && |Fresh(Failures(trace[..i], client), trace[i].checkedAt)| < 5
  }

  lemma FailsEarlier(before: seq<Attempt>, a: Attempt, client: string, i: nat)
    requires i < |before|
    ensures FailsAt(before + [a], client, i) <==> FailsAt(before, client, i)
  {
    assert (before + [a])[..i] == before[..i];
  }

  lemma FailsNow(before: seq<Attempt>, a: Attempt, client: string)
    ensures Failures(before + [a], client) ==
            if FailsAt(before + [a], client, |before|) then Failures(before, client) + [a.recordedAt]
            else Failures(before, client)
  {
    assert (before + [a])[..|before|] == before;
  }

  /** The positions of those logins. */
  ghost function FailedLogins(trace: seq<Attempt>, client: string): set<nat> {
    set i: nat | i < |trace| && FailsAt(trace, client, i)
  }

  lemma FailedLoginsGrow(before: seq<Attempt>, a: Attempt, client: string)
    ensures FailedLogins(before + [a], client) == FailedLogins(before, client)
              + (if FailsAt(before + [a], client, |before|) then {|before|} else {})
  {
    forall i: nat | i < |before| ensures FailsAt(before + [a], client, i) <==> FailsAt(before, client, i) {
      FailsEarlier(before, a, client, i);
    }
    hide FailsAt;
  }

  /** Each such login has recorded itself, and the failures of the client are those records, one for each. */
  lemma {:induction false} FailuresExact(trace: seq<Attempt>, client: string)
    ensures |Failures(trace, client)| == |FailedLogins(trace, client)|
    ensures forall t :: t in Failures(trace, client) <==>
              exists i :: i in FailedLogins(trace, client) && trace[i].recordedAt == t
  {
    if trace != [] {
      var before, a := trace[..|trace| - 1], trace[|trace| - 1];
      FailuresExact(before, client);
      assert before + [a] == trace;
      FailsNow(before, a, client);
      FailedLoginsGrow(before, a, client);
      assert forall i :: i in FailedLogins(before, client) ==> i < |before| && before[i] == trace[i];
      hide FailsAt, Failures, FailedLogins;
    }
  }
}
