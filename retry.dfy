/**
 * The bounded retries of `execute`, `executemany` and `commit`, stated over
 * an oracle: `ok(i)` is whether the driver accepts the `i`-th call made on
 * the connection. A database error is never re-raised; the retry counters
 * decide how many calls are made.
 */
module Retry {
  import opened PyValues
  import opened SqlText

  /** One call into the database driver. */
  datatype Call =
    | Exec(query: Query)                                   // `connection.execute(Sql(query))`
    | ExecMany(query: Query, params: seq<seq<Scalar>>)     // `cursor.executemany(Sql(query), params)` and its commit
    | CommitCall                                           // `connection.commit()`
    | Reconnect                                            // `db.connect(connection_string)`

  /**
   * Number of driver calls `execute(q, tries)` makes when its first call is
   * call number `start`: none when `tries` is 0, otherwise one per attempt
   * up to and including the first accepted one.
   */
  function Attempts(ok: nat -> bool, start: nat, tries: nat): (n: nat)
    ensures n <= tries
    ensures tries > 0 ==> n >= 1
    decreases tries
  {
    if tries == 0 then 0
    else if ok(start) then 1
    else 1 + Attempts(ok, start + 1, tries - 1)
  }

  /**
   * Whether one of the attempts is accepted, so that a result is returned
   * rather than `None`: the last call made is an accepted one.
   */
  predicate Succeeds(ok: nat -> bool, start: nat, tries: nat)
  {
    tries > 0 && ok(start + Attempts(ok, start, tries) - 1)
  }

  /** After a rejected first call the outcome is that of the remaining attempts. */
  lemma SucceedsStep(ok: nat -> bool, start: nat, tries: nat)
    requires tries > 0
    ensures Succeeds(ok, start, tries) <==> ok(start) || Succeeds(ok, start + 1, tries - 1)
  {
    if !ok(start) && tries > 1 {
      assert Attempts(ok, start, tries) == 1 + Attempts(ok, start + 1, tries - 1);
    }
  }

  /** `n` copies of one call. */
  function Repeated(c: Call, n: nat): (r: seq<Call>)
    ensures |r| == n && forall i :: 0 <= i < n ==> r[i] == c
  {
    seq(n, _ => c)
  }

  /** A result comes back exactly when one of the calls `start .. start + tries - 1` is accepted. */
  lemma {:induction false} SucceedsMeaning(ok: nat -> bool, start: nat, tries: nat)
    ensures Succeeds(ok, start, tries) <==> exists k: nat :: start <= k < start + tries && ok(k)
    decreases tries
  {
    if tries > 0 {
      SucceedsMeaning(ok, start + 1, tries - 1);
      SucceedsStep(ok, start, tries);
    }
  }

  /**
   * The attempts stop at the first accepted call: when call `k` is the
   * first accepted one from `start` on and `k < start + tries`, exactly
   * `k - start + 1` calls are made.
   */
  lemma {:induction false} FirstSuccess(ok: nat -> bool, start: nat, tries: nat, k: nat)
    requires start <= k < start + tries && ok(k)
    requires forall i: nat :: start <= i < k ==> !ok(i)
    ensures Attempts(ok, start, tries) == k - start + 1
    ensures Succeeds(ok, start, tries)
    decreases tries
  {
    if k > start {
      FirstSuccess(ok, start + 1, tries - 1, k);
      SucceedsStep(ok, start, tries);
    }
  }

  /** When every attempt is rejected, all `tries` calls are made and `None` comes back. */
  lemma {:induction false} AllRejected(ok: nat -> bool, start: nat, tries: nat)
    requires forall i: nat :: start <= i < start + tries ==> !ok(i)
    ensures Attempts(ok, start, tries) == tries
    ensures !Succeeds(ok, start, tries)
    decreases tries
  {
    if tries > 0 {
      AllRejected(ok, start + 1, tries - 1);
      SucceedsStep(ok, start, tries);
    }
  }

  /**
   * The log of `commit(reconnect_attempts)`: a commit; when it is rejected
   * and attempts are left, a reconnect; when that is accepted, the same
   * again with one attempt fewer. A rejected reconnect ends it.
   */
  function CommitLog(ok: nat -> bool, start: nat, attempts: nat): (r: seq<Call>)
    ensures |r| >= 1 && r[0] == CommitCall
    decreases attempts
  {
    if ok(start) || attempts == 0 then [CommitCall]
    else if !ok(start + 1) then [CommitCall, Reconnect]
    else [CommitCall, Reconnect] + CommitLog(ok, start + 2, attempts - 1)
  }

  /** Whether one of the commits of `CommitLog` is accepted. */
  predicate Committed(ok: nat -> bool, start: nat, attempts: nat)
    decreases attempts
  {
    ok(start) || (attempts > 0 && ok(start + 1) && Committed(ok, start + 2, attempts - 1))
  }

  /** One round of `commit`: the commit, and the reconnect and next round when it is rejected. */
  lemma CommitUnfold(ok: nat -> bool, start: nat, attempts: nat)
    ensures ok(start) || attempts == 0 ==>
      CommitLog(ok, start, attempts) == [CommitCall] && (Committed(ok, start, attempts) <==> ok(start))
    ensures !ok(start) && attempts > 0 && !ok(start + 1) ==>
      CommitLog(ok, start, attempts) == [CommitCall, Reconnect] && !Committed(ok, start, attempts)
    ensures !ok(start) && attempts > 0 && ok(start + 1) ==>
      && CommitLog(ok, start, attempts) == [CommitCall, Reconnect] + CommitLog(ok, start + 2, attempts - 1)
      && (Committed(ok, start, attempts) <==> Committed(ok, start + 2, attempts - 1))
  {
  }

  /**
   * One round of `commit` seen from a loop that has logged `here` so far and
   * owes `CommitLog(ok, |here|, left)` of the whole `CommitLog(ok, start, attempts)`.
   */
  lemma CommitRound(ok: nat -> bool, log: seq<Call>, start: nat, attempts: nat, here: seq<Call>, left: nat)
    requires log + CommitLog(ok, start, attempts) == here + CommitLog(ok, |here|, left)
    requires Committed(ok, start, attempts) == Committed(ok, |here|, left)
    ensures ok(|here|) || left == 0 ==>
      log + CommitLog(ok, start, attempts) == here + [CommitCall] && (Committed(ok, start, attempts) <==> ok(|here|))
    ensures !ok(|here|) && left > 0 && !ok(|here| + 1) ==>
      log + CommitLog(ok, start, attempts) == here + [CommitCall, Reconnect] && !Committed(ok, start, attempts)
    ensures !ok(|here|) && left > 0 && ok(|here| + 1) ==>
      && log + CommitLog(ok, start, attempts) == (here + [CommitCall, Reconnect]) + CommitLog(ok, |here| + 2, left - 1)
      && (Committed(ok, start, attempts) <==> Committed(ok, |here| + 2, left - 1))
  {
    CommitUnfold(ok, |here|, left);
    if !ok(|here|) && left > 0 && ok(|here| + 1) {
      assert here + ([CommitCall, Reconnect] + CommitLog(ok, |here| + 2, left - 1))
        == (here + [CommitCall, Reconnect]) + CommitLog(ok, |here| + 2, left - 1);
    }
  }

  /** Occurrences of one kind of call in a log. */
  function Occurrences(log: seq<Call>, c: Call): nat
  {
    if log == [] then 0 else (if log[0] == c then 1 else 0) + Occurrences(log[1..], c)
  }

  lemma {:induction false} OccurrencesAppend(a: seq<Call>, b: seq<Call>, c: Call)
    ensures Occurrences(a + b, c) == Occurrences(a, c) + Occurrences(b, c)
  {
    if a != [] {
      assert (a + b)[1..] == a[1..] + b;
      OccurrencesAppend(a[1..], b, c);
    } else {
      assert a + b == b;
    }
  }

  /**
   * `commit` retries at most `reconnect_attempts` times after the first
   * failure: at most `attempts + 1` commits and `attempts` reconnects, one
   * reconnect before each retried commit.
   */
  lemma CommitBounds(ok: nat -> bool, start: nat, attempts: nat)
    ensures 1 <= Occurrences(CommitLog(ok, start, attempts), CommitCall) <= attempts + 1
    ensures Occurrences(CommitLog(ok, start, attempts), Reconnect) <= attempts
    ensures |CommitLog(ok, start, attempts)| <= 2 * attempts + 1
    ensures Committed(ok, start, attempts) ==> CommitLog(ok, start, attempts)[|CommitLog(ok, start, attempts)| - 1] == CommitCall
  {
    CommitCounts(ok, start, attempts);
    CommitShape(ok, start, attempts);
  }

  lemma {:induction false} CommitCounts(ok: nat -> bool, start: nat, attempts: nat)
    ensures 1 <= Occurrences(CommitLog(ok, start, attempts), CommitCall) <= attempts + 1
    ensures Occurrences(CommitLog(ok, start, attempts), Reconnect) <= attempts
    decreases attempts
  {
    var log := CommitLog(ok, start, attempts);
    CommitUnfold(ok, start, attempts);
    if ok(start) || attempts == 0 {
      assert log[1..] == [];
    } else if !ok(start + 1) {
      assert log[1..] == [Reconnect] && log[1..][1..] == [];
    } else {
      var rest := CommitLog(ok, start + 2, attempts - 1);
      CommitCounts(ok, start + 2, attempts - 1);
      OccurrencesAppend([CommitCall, Reconnect], rest, CommitCall);
      OccurrencesAppend([CommitCall, Reconnect], rest, Reconnect);
      assert [CommitCall, Reconnect][1..] == [Reconnect] && [Reconnect][1..] == [];
    }
  }

  lemma {:induction false} CommitShape(ok: nat -> bool, start: nat, attempts: nat)
    ensures |CommitLog(ok, start, attempts)| <= 2 * attempts + 1
    ensures Committed(ok, start, attempts) ==> CommitLog(ok, start, attempts)[|CommitLog(ok, start, attempts)| - 1] == CommitCall
    decreases attempts
  {
    CommitUnfold(ok, start, attempts);
    if !ok(start) && attempts > 0 && ok(start + 1) {
      var rest := CommitLog(ok, start + 2, attempts - 1);
      CommitShape(ok, start + 2, attempts - 1);
      var log := CommitLog(ok, start, attempts);
      assert log[|log| - 1] == rest[|rest| - 1];
    }
  }


  /** The connection accepts every call. */
  ghost predicate Reliable(ok: nat -> bool)
  {
    forall i :: ok(i)
  }

  /** On a reliable connection every statement goes through on its first attempt and every commit at once. */
  lemma ReliableOnce(ok: nat -> bool, start: nat, tries: nat, attempts: nat)
    requires Reliable(ok) && tries > 0
    ensures Attempts(ok, start, tries) == 1 && Succeeds(ok, start, tries)
    ensures CommitLog(ok, start, attempts) == [CommitCall] && Committed(ok, start, attempts)
  {
  }
}
