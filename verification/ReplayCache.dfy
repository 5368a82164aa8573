/**
 * The replay cache of the bridge. Accepted signatures are remembered, but only for a while: the
 * question is whether forgetting ever changes a decision.
 */
module ReplayCache {

  /** One call to TryVerify. `genuine`: an approved client was found and its key verifies the signature. */
  datatype Attempt = Attempt(now: int, ts: int, signature: string, genuine: bool)

  /** The cache maps a signature to the time it was accepted. */
  type Seen = map<string, int>

  const CLOCK_SKEW_MS: int := 60_000

  predicate InWindow(a: Attempt, skew: int) {
    -skew <= a.now - a.ts <= skew
  }

  function Prune(seen: Seen, now: int, horizon: int): Seen {
    map k | k in seen && now - seen[k] <= horizon :: seen[k]
  }

  /** The cache after an attempt, and the verdict. */
  datatype Outcome = Outcome(seen: Seen, accepted: bool)

  function Decide(seen: Seen, a: Attempt, skew: int, horizon: int): Outcome {
    if !InWindow(a, skew) || !a.genuine then Outcome(seen, false)
    else
      var kept := Prune(seen, a.now, horizon);
      if a.signature in kept then Outcome(kept, false)
      else Outcome(kept[a.signature := a.now], true)
  }

  /** The cache after a run of attempts, from an empty one. */
  function Cached(run: seq<Attempt>, skew: int, horizon: int): Seen {
    if run == [] then map[]
    else
      var front := run[..|run| - 1];
      Decide(Cached(front, skew, horizon), run[|run| - 1], skew, horizon).seen
  }

  /** The verdict on attempt `i` of a run. */
  predicate Accepted(run: seq<Attempt>, i: nat, skew: int, horizon: int)
    requires i < |run|
  {
    Decide(Cached(run[..i], skew, horizon), run[i], skew, horizon).accepted
  }

  /** Every signature a cache that never forgets would hold. */
  function Ever(run: seq<Attempt>, skew: int): set<string> {
    if run == [] then {}
    else
      var last := run[|run| - 1];
      var before := Ever(run[..|run| - 1], skew);
      if Fresh(before, last, skew) then before + {last.signature} else before
  }

  /** The verdict of a cache that never forgets. */
  predicate Fresh(ever: set<string>, a: Attempt, skew: int) {
    InWindow(a, skew) && a.genuine && a.signature !in ever
  }

  predicate ClockOrdered(run: seq<Attempt>) {
    forall i, j | 0 <= i < j < |run| :: run[i].now <= run[j].now
  }

  /** The timestamp is part of what is signed: a signature is genuine for one timestamp at most. */
  predicate OneTimestamp(run: seq<Attempt>) {
    forall i, j | 0 <= i < j < |run| && run[i].genuine && run[j].genuine && run[i].signature == run[j].signature
      :: run[i].ts == run[j].ts
  }

  /** Attempt `i` was the one a cache that never forgets accepted. */
  predicate Admitted(run: seq<Attempt>, i: nat, skew: int)
    requires i < |run|
  {
    Fresh(Ever(run[..i], skew), run[i], skew)
  }

  lemma {:induction false} EverComesFromAnAdmission(run: seq<Attempt>, skew: int, s: string) returns (i: nat)
    requires s in Ever(run, skew)
    ensures i < |run| && Admitted(run, i, skew) && run[i].signature == s
  {
    var front, last := run[..|run| - 1], run[|run| - 1];
    if s in Ever(front, skew) {
      i := EverComesFromAnAdmission(front, skew, s);
      assert run[..i] == front[..i];
    } else {
      i := |run| - 1;
    }
  }

  /**
   * What the pruned cache knows of a run: nothing but admitted signatures, and every admitted one
   * unless the clock has since moved past the horizon.
   */
  predicate Remembers(seen: Seen, run: seq<Attempt>, skew: int, horizon: int) {
    && seen.Keys <= Ever(run, skew)
    && forall i | 0 <= i < |run| && Admitted(run, i, skew) :: Held(seen, run[i], run[|run| - 1].now, horizon)
  }

  predicate Held(seen: Seen, a: Attempt, now: int, horizon: int) {
    (a.signature in seen && seen[a.signature] == a.now) || now - a.now > horizon
  }

  /** Two genuine uses of one timestamp inside the window are at most two skews apart. */
  lemma UsesAreClose(a: Attempt, b: Attempt, skew: int)
    requires InWindow(a, skew) && InWindow(b, skew) && a.ts == b.ts
    ensures b.now - a.now <= 2 * skew
  {
  }

  /** A cache that remembers its run decides the next attempt like one that never forgets. */
  lemma NextVerdictAgrees(seen: Seen, run: seq<Attempt>, skew: int, horizon: int)
    requires run != [] && ClockOrdered(run) && OneTimestamp(run) && 2 * skew <= horizon
    requires Remembers(seen, run[..|run| - 1], skew, horizon)
    ensures Decide(seen, run[|run| - 1], skew, horizon).accepted
      <==> Fresh(Ever(run[..|run| - 1], skew), run[|run| - 1], skew)
  {
    var front, a := run[..|run| - 1], run[|run| - 1];
    if InWindow(a, skew) && a.genuine && a.signature in Ever(front, skew) {
      var i := EverComesFromAnAdmission(front, skew, a.signature);
      assert run[i] == front[i];
      UsesAreClose(run[i], a, skew);
      assert Held(seen, front[i], front[|front| - 1].now, horizon);
      assert front[|front| - 1] == run[|front| - 1];
      assert a.signature in Prune(seen, a.now, horizon);
    }
  }

  lemma HeldSurvives(seen: Seen, a: Attempt, earlier: Attempt, before: int, skew: int, horizon: int)
    requires before <= a.now && Held(seen, earlier, before, horizon)
    requires a.signature == earlier.signature ==> !Decide(seen, a, skew, horizon).accepted
    ensures Held(Decide(seen, a, skew, horizon).seen, earlier, a.now, horizon)
  {
  }

  lemma {:induction false} CacheRemembers(run: seq<Attempt>, skew: int, horizon: int)
    requires ClockOrdered(run) && OneTimestamp(run) && 2 * skew <= horizon && horizon >= 0
    ensures Remembers(Cached(run, skew, horizon), run, skew, horizon)
  {
    if run != [] {
      var front, a := run[..|run| - 1], run[|run| - 1];
      CacheRemembers(front, skew, horizon);
      var seen := Cached(front, skew, horizon);
      NextVerdictAgrees(seen, run, skew, horizon);
      var outcome := Decide(seen, a, skew, horizon);
      assert Cached(run, skew, horizon) == outcome.seen;
      forall i | 0 <= i < |run| && Admitted(run, i, skew)
        ensures Held(outcome.seen, run[i], a.now, horizon)
      {
        if i < |front| {
          assert run[..i] == front[..i] && run[i] == front[i];
          assert Admitted(front, i, skew);
          AdmittedStays(front, i, skew);
          HeldSurvives(seen, a, run[i], front[|front| - 1].now, skew, horizon);
        }
      }
    }
  }

  lemma {:induction false} AdmittedStays(run: seq<Attempt>, i: nat, skew: int)
    requires i < |run| && Admitted(run, i, skew)
    ensures run[i].signature in Ever(run, skew)
  {
    var front := run[..|run| - 1];
    if i < |front| {
      assert run[..i] == front[..i];
      AdmittedStays(front, i, skew);
    }
  }

  /** Over every run the pruned cache decides each attempt exactly as one that never forgets. */
  lemma PruningChangesNoVerdict(run: seq<Attempt>, skew: int, horizon: int, i: nat)
    requires ClockOrdered(run) && OneTimestamp(run) && 2 * skew <= horizon && horizon >= 0 && i < |run|
    ensures Accepted(run, i, skew, horizon) <==> Admitted(run, i, skew)
  {
    CacheRemembers(run[..i], skew, horizon);
    assert run[..i + 1][..i] == run[..i];
    NextVerdictAgrees(Cached(run[..i], skew, horizon), run[..i + 1], skew, horizon);
  }

  /** No signature is accepted twice in any run. */
  lemma NoSignatureTwice(run: seq<Attempt>, skew: int, horizon: int, i: nat, j: nat)
    requires ClockOrdered(run) && OneTimestamp(run) && 2 * skew <= horizon && horizon >= 0
    requires i < j < |run| && Accepted(run, i, skew, horizon) && Accepted(run, j, skew, horizon)
    ensures run[i].signature != run[j].signature
  {
    PruningChangesNoVerdict(run, skew, horizon, i);
    PruningChangesNoVerdict(run, skew, horizon, j);
    assert run[..j][..i] == run[..i];
    AdmittedStays(run[..j], i, skew);
  }

  /** With the horizon the code uses, two skews, both hold. */
  lemma TheCodesHorizonIsSafe(run: seq<Attempt>, i: nat, j: nat)
    requires ClockOrdered(run) && OneTimestamp(run) && i < j < |run|
    requires Accepted(run, i, CLOCK_SKEW_MS, CLOCK_SKEW_MS * 2) && Accepted(run, j, CLOCK_SKEW_MS, CLOCK_SKEW_MS * 2)
    ensures run[i].signature != run[j].signature
  {
    NoSignatureTwice(run, CLOCK_SKEW_MS, CLOCK_SKEW_MS * 2, i, j);
  }

  /** Every ordered run keeps signatures single. */
  ghost predicate NeverTwice(skew: int, horizon: int) {
    forall run: seq<Attempt>, i: nat, j: nat | ClockOrdered(run) && OneTimestamp(run) && i < j < |run|
      && Accepted(run, i, skew, horizon) && Accepted(run, j, skew, horizon)
      :: run[i].signature != run[j].signature
  }

  /** The horizon is exact: remembering for less than two skews lets some signature in twice. */
  lemma SafeIffTwoSkews(skew: int, horizon: int)
    requires skew >= 0 && horizon >= 0
    ensures NeverTwice(skew, horizon) <==> 2 * skew <= horizon
  {
    if 2 * skew <= horizon {
      forall run: seq<Attempt>, i: nat, j: nat | ClockOrdered(run) && OneTimestamp(run) && i < j < |run|
        && Accepted(run, i, skew, horizon) && Accepted(run, j, skew, horizon)
        ensures run[i].signature != run[j].signature
      {
        NoSignatureTwice(run, skew, horizon, i, j);
      }
    } else {
      var first, again := Attempt(0, skew, "s", true), Attempt(2 * skew, skew, "s", true);
      var run := [first, again];
      assert run[..0] == [] && run[..1] == [first] && [first][..0] == [];
      assert Accepted(run, 0, skew, horizon);
      assert Cached([first], skew, horizon) == map["s" := 0];
      assert Accepted(run, 1, skew, horizon);
      assert run[0].signature == run[1].signature;
    }
  }

  // ── From signatures to messages ─────────────────────────────────────────────

  /** What is signed. */
  datatype Message = Message(uniqueId: string, tsMillis: int, command: string)

  datatype Call = Call(now: int, message: Message, signature: string)

  /** Whether a signature, as written in a call, verifies over a message. */
  type Verifier = (Message, string) -> bool

  /** What the cache keys a written signature by. The code takes it as written. */
  type Key = string -> string

  function Verbatim(signature: string): string {
    signature
  }

  function Attempts(calls: seq<Call>, verifies: Verifier, key: Key): (r: seq<Attempt>)
    ensures |r| == |calls|
  {
    seq(|calls|, i requires 0 <= i < |calls| =>
      Attempt(calls[i].now, calls[i].message.tsMillis, key(calls[i].signature),
              verifies(calls[i].message, calls[i].signature)))
  }

  /** The timestamp is part of what is signed. */
  ghost predicate FixesTimestamp(verifies: Verifier, key: Key) {
    forall m, m', s, s' | verifies(m, s) && verifies(m', s') && key(s) == key(s') :: m.tsMillis == m'.tsMillis
  }

  /** All the signatures that verify for a message have one key. */
  ghost predicate OneKey(verifies: Verifier, key: Key) {
    forall m, s, s' | verifies(m, s) && verifies(m, s') :: key(s) == key(s')
  }

  /** Both calls are accepted in this run, which is on a clock that never goes back. */
  ghost predicate BothAccepted(calls: seq<Call>, i: nat, j: nat, verifies: Verifier, key: Key, skew: int, horizon: int)
  {
    var run := Attempts(calls, verifies, key);
    i < j < |calls| && ClockOrdered(run) && Accepted(run, i, skew, horizon) && Accepted(run, j, skew, horizon)
  }

  ghost predicate NeverTheSameMessage(verifies: Verifier, key: Key, skew: int, horizon: int) {
    forall calls: seq<Call>, i: nat, j: nat | BothAccepted(calls, i, j, verifies, key, skew, horizon)
      :: calls[i].message != calls[j].message
  }

  lemma AttemptsKeepTimestamps(calls: seq<Call>, verifies: Verifier, key: Key)
    requires FixesTimestamp(verifies, key)
    ensures OneTimestamp(Attempts(calls, verifies, key))
  {
    var run := Attempts(calls, verifies, key);
    forall i, j | 0 <= i < j < |run| && run[i].genuine && run[j].genuine && run[i].signature == run[j].signature
      ensures run[i].ts == run[j].ts
    {
      assert verifies(calls[i].message, calls[i].signature) && verifies(calls[j].message, calls[j].signature);
    }
  }

  lemma OneKeyIsSingle(calls: seq<Call>, i: nat, j: nat, verifies: Verifier, key: Key, skew: int, horizon: int)
    requires FixesTimestamp(verifies, key) && OneKey(verifies, key) && skew >= 0 && 2 * skew <= horizon
    requires BothAccepted(calls, i, j, verifies, key, skew, horizon)
    ensures calls[i].message != calls[j].message
  {
    AttemptsKeepTimestamps(calls, verifies, key);
    NoSignatureTwice(Attempts(calls, verifies, key), skew, horizon, i, j);
  }

  /**
   * Whatever a cache keys its signatures by, it keeps messages single if and only if all the
   * signatures that verify for a message have one key.
   */
  lemma KeyedMessagesAreSingleIff(verifies: Verifier, key: Key, skew: int, horizon: int)
    requires FixesTimestamp(verifies, key) && skew >= 0 && 2 * skew <= horizon
    ensures NeverTheSameMessage(verifies, key, skew, horizon) <==> OneKey(verifies, key)
  {
    if OneKey(verifies, key) {
      forall calls: seq<Call>, i: nat, j: nat | BothAccepted(calls, i, j, verifies, key, skew, horizon)
        ensures calls[i].message != calls[j].message
      {
        OneKeyIsSingle(calls, i, j, verifies, key, skew, horizon);
      }
    } else {
      var m, s, s' :| verifies(m, s) && verifies(m, s') && key(s) != key(s');
      var calls := [Call(m.tsMillis, m, s), Call(m.tsMillis, m, s')];
      TwoSpellings(Attempts(calls, verifies, key), skew, horizon);
      assert BothAccepted(calls, 0, 1, verifies, key, skew, horizon);
    }
  }

  /** Among the signatures that verify for a message, the decoder tells spellings apart. */
  ghost predicate TellsApart(verifies: Verifier, decode: Key) {
    forall m, s, s' | verifies(m, s) && verifies(m, s') && decode(s) == decode(s') :: s == s'
  }

  /**
   * Text against bytes. When a message has one signature once decoded, a cache keyed by the decoded
   * signature keeps messages single; the code's, keyed by the text, does so if and only if the
   * decoder never takes two spellings of a genuine signature for the same bytes.
   */
  lemma MessagesAreSingleIff(verifies: Verifier, decode: Key, skew: int, horizon: int)
    requires FixesTimestamp(verifies, decode) && OneKey(verifies, decode) && skew >= 0 && 2 * skew <= horizon
    ensures NeverTheSameMessage(verifies, decode, skew, horizon)
    ensures NeverTheSameMessage(verifies, Verbatim, skew, horizon) <==> TellsApart(verifies, decode)
  {
    KeyedMessagesAreSingleIff(verifies, decode, skew, horizon);
    assert FixesTimestamp(verifies, Verbatim);
    KeyedMessagesAreSingleIff(verifies, Verbatim, skew, horizon);
    assert OneKey(verifies, Verbatim) <==> TellsApart(verifies, decode);
  }

  lemma TwoSpellings(run: seq<Attempt>, skew: int, horizon: int)
    requires |run| == 2 && skew >= 0 && horizon >= 0 && run[0].signature != run[1].signature
    requires run[0].genuine && run[1].genuine && run[0].now == run[1].now == run[0].ts == run[1].ts
    ensures ClockOrdered(run) && Accepted(run, 0, skew, horizon) && Accepted(run, 1, skew, horizon)
  {
    assert run[..0] == [] && run[..1] == [run[0]] && [run[0]][..0] == [];
    assert Cached([run[0]], skew, horizon) == map[run[0].signature := run[0].now];
  }
}
