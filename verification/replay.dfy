// Replay memory (apps/void-chat/src/lib.rs). The protector forgets every entry
// whose timestamp has left the window; the theorems below say that forgetting
// is invisible: it decides exactly as a log that never forgets.

module Replay {
  import opened Prelude

  /** `CHAT_REPLAY_WINDOW_SECS` in milliseconds. */
  const REPLAY_WINDOW_MS: Millis := 120_000

  datatype Verdict = Accepted | ReplayDetected | WindowExpired

  /** Oldest timestamp still inside the window (`saturating_sub`). */
  function Lower(now: Millis, window: Millis): Millis {
    SaturatingSub(now, window)
  }

  /** Newest timestamp inside the window (`saturating_add` on `u128`). */
  function Upper(now: Millis, window: Millis): Millis {
    if now + window > U128_MAX then U128_MAX else now + window
  }

  predicate InWindow(ts: Millis, now: Millis, window: Millis) {
    Lower(now, window) <= ts <= Upper(now, window)
  }

  function Prune<K>(seen: map<K, Millis>, lower: Millis): map<K, Millis> {
    map k | k in seen && seen[k] >= lower :: seen[k]
  }

  function Decide<K>(seen: map<K, Millis>, key: K, ts: Millis, now: Millis, window: Millis): Verdict {
    if !InWindow(ts, now, window) then WindowExpired
    else if key in Prune(seen, Lower(now, window)) then ReplayDetected
    else Accepted
  }

  function Remember<K>(seen: map<K, Millis>, key: K, ts: Millis, now: Millis, window: Millis): map<K, Millis> {
    var kept := Prune(seen, Lower(now, window));
    if Decide(seen, key, ts, now, window).Accepted? then kept[key := ts] else kept
  }

  class ReplayProtector {
    const windowMs: Millis
    var seen: map<string, Millis>

    constructor (window: Millis)
      ensures windowMs == window && seen == map[]
    {
      windowMs := window;
      seen := map[];
    }

    method CheckAndRecord(scope: string, nonce: string, ts: Millis, now: Millis) returns (verdict: Verdict)
      modifies this
      ensures verdict == Decide(old(seen), scope + ":" + nonce, ts, now, windowMs)
      ensures seen == Remember(old(seen), scope + ":" + nonce, ts, now, windowMs)
    {
      var lower := SaturatingSub(now, windowMs);
      var upper := if now + windowMs > U128_MAX then U128_MAX else now + windowMs;
      seen := map k | k in seen && seen[k] >= lower :: seen[k];
      if ts < lower || ts > upper {
        return WindowExpired;
      }
      var key := scope + ":" + nonce;
      if key in seen {
        return ReplayDetected;
      }
      seen := seen[key := ts];
      verdict := Accepted;
    }
  }

  // ---- The log that never forgets ---------------------------------------

  datatype Request<K> = Request(key: K, ts: Millis, now: Millis)

  datatype Memory<K> = Memory(seen: map<K, Millis>, verdicts: seq<Verdict>)

  function Init<T>(s: seq<T>): seq<T>
    requires s != []
  {
    s[..|s| - 1]
  }

  function Last<T>(s: seq<T>): T
    requires s != []
  {
    s[|s| - 1]
  }

  /** What the pruning protector remembers and answers after `reqs`. */
  function PrunedRun<K>(reqs: seq<Request<K>>, window: Millis): (m: Memory<K>)
    ensures |m.verdicts| == |reqs|
  {
    if reqs == [] then Memory(map[], [])
    else
      var m, r := PrunedRun(Init(reqs), window), Last(reqs);
      Memory(Remember(m.seen, r.key, r.ts, r.now, window),
             m.verdicts + [Decide(m.seen, r.key, r.ts, r.now, window)])
  }

  /** Request `i` uses a key whose earlier acceptance is still inside the window. */
  ghost predicate StillHeld<K>(reqs: seq<Request<K>>, verdicts: seq<Verdict>, i: nat, r: Request<K>, window: Millis)
    requires i < |reqs| && |verdicts| == |reqs|
  {
    verdicts[i].Accepted? && reqs[i].key == r.key && Lower(r.now, window) <= reqs[i].ts
  }

  /** The verdict of looking through the whole history of accepted requests. */
  ghost function Searched<K>(past: seq<Request<K>>, v: seq<Verdict>, r: Request<K>, window: Millis): Verdict
    requires |v| == |past|
  {
    if !InWindow(r.ts, r.now, window) then WindowExpired
    else if exists i: nat :: i < |past| && StillHeld(past, v, i, r, window) then ReplayDetected
    else Accepted
  }

  /** The verdicts of a log that never forgets. */
  ghost function UnboundedRun<K>(reqs: seq<Request<K>>, window: Millis): (v: seq<Verdict>)
    ensures |v| == |reqs|
  {
    if reqs == [] then []
    else
      var past, r := Init(reqs), Last(reqs);
      var v := UnboundedRun(past, window);
      v + [Searched(past, v, r, window)]
  }

  ghost predicate Monotone<K>(reqs: seq<Request<K>>) {
    forall i, j :: 0 <= i < j < |reqs| ==> reqs[i].now <= reqs[j].now
  }

  /** `seen` is exactly the accepted part of the history at or above `lower`. */
  ghost predicate Represents<K>(seen: map<K, Millis>, reqs: seq<Request<K>>, verdicts: seq<Verdict>, lower: Millis)
    requires |verdicts| == |reqs|
  {
    && (forall k :: k in seen ==>
          && seen[k] >= lower
          && exists i :: 0 <= i < |reqs| && verdicts[i].Accepted? && reqs[i].key == k && reqs[i].ts == seen[k])
    && (forall i :: 0 <= i < |reqs| && verdicts[i].Accepted? && lower <= reqs[i].ts ==>
          reqs[i].key in seen && seen[reqs[i].key] == reqs[i].ts)
  }

  lemma {:induction false} RepresentsStep<K>(seen: map<K, Millis>, past: seq<Request<K>>, v: seq<Verdict>, lower: Millis,
                                             r: Request<K>, window: Millis)
    requires |v| == |past| && Represents(seen, past, v, lower) && lower <= Lower(r.now, window)
    ensures Decide(seen, r.key, r.ts, r.now, window) == Searched(past, v, r, window)
    ensures Represents(Remember(seen, r.key, r.ts, r.now, window), past + [r],
                       v + [Decide(seen, r.key, r.ts, r.now, window)], Lower(r.now, window))
  {
    var low := Lower(r.now, window);
    var kept := Prune(seen, low);
    if r.key in kept {
      var i :| 0 <= i < |past| && v[i].Accepted? && past[i].key == r.key && past[i].ts == seen[r.key];
      assert StillHeld(past, v, i, r, window);
    }
    var d := Decide(seen, r.key, r.ts, r.now, window);
    var seen', all, v' := Remember(seen, r.key, r.ts, r.now, window), past + [r], v + [d];
    forall k | k in seen'
      ensures seen'[k] >= low && exists i :: 0 <= i < |all| && v'[i].Accepted? && all[i].key == k && all[i].ts == seen'[k]
    {
      if d.Accepted? && k == r.key {
        assert all[|past|] == r && v'[|past|].Accepted?;
      } else {
        var i :| 0 <= i < |past| && v[i].Accepted? && past[i].key == k && past[i].ts == seen[k];
        assert all[i] == past[i] && v'[i] == v[i];
      }
    }
    forall i | 0 <= i < |all| && v'[i].Accepted? && low <= all[i].ts
      ensures all[i].key in seen' && seen'[all[i].key] == all[i].ts
    {
      if i < |past| {
        assert all[i] == past[i] && v'[i] == v[i];
      }
    }
  }

  /** Forgetting is invisible: for every request sequence with a clock that does
      not run backwards, the pruned memory answers as the unbounded log does, and
      what it keeps is exactly the accepted requests still inside the window. */
  lemma {:induction false} PrunedDecidesAsUnbounded<K>(reqs: seq<Request<K>>, window: Millis)
    requires Monotone(reqs)
    ensures PrunedRun(reqs, window).verdicts == UnboundedRun(reqs, window)
    ensures reqs != [] ==>
              Represents(PrunedRun(reqs, window).seen, reqs, UnboundedRun(reqs, window), Lower(Last(reqs).now, window))
  {
    hide Decide, Remember, Searched, Represents;
    if reqs != [] {
      var past, r := Init(reqs), Last(reqs);
      PrunedDecidesAsUnbounded(past, window);
      assert past + [r] == reqs;
      var m := PrunedRun(past, window);
      var lower: Millis := if past == [] then 0 else Lower(Last(past).now, window);
      assert past != [] ==> Last(past) == reqs[|past| - 1];
      NothingRepresents<K>();
      RepresentsStep(m.seen, past, m.verdicts, lower, r, window);
    }
  }

  lemma NothingRepresents<K>()
    ensures Represents<K>(map[], [], [], 0)
  {
  }

  /** The `n`-th request is decided, and remembered, over what the earlier ones left. */
  lemma {:induction false} PrunedAt<K>(reqs: seq<Request<K>>, window: Millis, n: nat)
    requires n < |reqs|
    ensures var m, r := PrunedRun(reqs[..n], window).seen, reqs[n];
            && PrunedRun(reqs, window).verdicts[n] == Decide(m, r.key, r.ts, r.now, window)
            && PrunedRun(reqs[..n + 1], window).seen == Remember(m, r.key, r.ts, r.now, window)
    decreases |reqs|
  {
    hide Decide, Remember;
    if n == |reqs| - 1 {
      assert reqs[..n + 1] == reqs && Init(reqs) == reqs[..n] && Last(reqs) == reqs[n];
    } else {
      PrunedAt(Init(reqs), window, n);
      assert Init(reqs)[..n] == reqs[..n] && Init(reqs)[..n + 1] == reqs[..n + 1] && Init(reqs)[n] == reqs[n];
    }
  }

  /** An accepted entry stays in memory as long as no reading puts it below the window. */
  lemma {:induction false} HeldUntilForgotten<K>(reqs: seq<Request<K>>, window: Millis, i: nat, j: nat)
    requires i < j <= |reqs| && PrunedRun(reqs, window).verdicts[i].Accepted?
    requires forall k :: i < k < j ==> Lower(reqs[k].now, window) <= reqs[i].ts
    ensures var m := PrunedRun(reqs[..j], window).seen; reqs[i].key in m && m[reqs[i].key] == reqs[i].ts
    decreases j
  {
    hide PrunedRun;
    PrunedAt(reqs, window, j - 1);
    if j - 1 > i {
      HeldUntilForgotten(reqs, window, i, j - 1);
    }
  }

  /** Between two acceptances of one key and timestamp lies a reading that forgot it. */
  lemma ForgottenBetween<K>(reqs: seq<Request<K>>, window: Millis, i: nat, j: nat)
    requires i < j < |reqs| && reqs[i].key == reqs[j].key && reqs[i].ts == reqs[j].ts
    requires PrunedRun(reqs, window).verdicts[i].Accepted? && PrunedRun(reqs, window).verdicts[j].Accepted?
    ensures exists k :: i < k < j && reqs[i].ts < Lower(reqs[k].now, window)
    ensures InWindow(reqs[i].ts, reqs[i].now, window) && InWindow(reqs[i].ts, reqs[j].now, window)
  {
    hide PrunedRun;
    PrunedAt(reqs, window, i);
    PrunedAt(reqs, window, j);
    if forall k :: i < k < j ==> Lower(reqs[k].now, window) <= reqs[i].ts {
      HeldUntilForgotten(reqs, window, i, j);
    }
  }

  /** A (key, timestamp) pair is accepted at most once, however long the run and
      however much has been forgotten in between. */
  lemma NeverAcceptedTwice<K>(reqs: seq<Request<K>>, window: Millis, i: nat, j: nat)
    requires Monotone(reqs) && i < j < |reqs|
    requires reqs[i].key == reqs[j].key && reqs[i].ts == reqs[j].ts
    requires PrunedRun(reqs, window).verdicts[i].Accepted?
    ensures !PrunedRun(reqs, window).verdicts[j].Accepted?
  {
    hide PrunedRun;
    if PrunedRun(reqs, window).verdicts[j].Accepted? {
      ForgottenBetween(reqs, window, i, j);
    }
  }

  /** Every remembered timestamp is inside the window around the last reading. */
  lemma {:induction false} RememberedStayInWindow<K>(reqs: seq<Request<K>>, window: Millis, k: K)
    requires Monotone(reqs) && reqs != []
    requires k in PrunedRun(reqs, window).seen
    ensures InWindow(PrunedRun(reqs, window).seen[k], Last(reqs).now, window)
  {
    var past, r := Init(reqs), Last(reqs);
    var m := PrunedRun(past, window);
    if !(Decide(m.seen, r.key, r.ts, r.now, window).Accepted? && k == r.key) {
      if past != [] {
        assert Last(past) == reqs[|past| - 1];
        RememberedStayInWindow(past, window, k);
      }
    }
  }

  // ---- Clocks that step back --------------------------------------------

  ghost predicate Reads<K>(reqs: seq<Request<K>>, clock: seq<Millis>) {
    |reqs| == |clock| && forall i :: 0 <= i < |clock| ==> reqs[i].now == clock[i]
  }

  /** The oldest timestamp inside the windows of both readings. */
  function OldestCommon(x: Millis, y: Millis, window: Millis): Millis {
    if Lower(x, window) < Lower(y, window) then Lower(y, window) else Lower(x, window)
  }

  /** The windows of readings `i` and `j` meet, and reading `k` between them forgets
      part of what they share: the clock ran ahead and stepped back. */
  predicate Forgets(clock: seq<Millis>, window: Millis, i: nat, k: nat, j: nat)
    requires i < k < j < |clock|
  {
    var ts := OldestCommon(clock[i], clock[j], window);
    InWindow(ts, clock[i], window) && InWindow(ts, clock[j], window) && ts < Lower(clock[k], window)
  }

  predicate StepsBack(clock: seq<Millis>, window: Millis) {
    exists i: nat, k: nat, j: nat :: i < k < j < |clock| && Forgets(clock, window, i, k, j)
  }

  /** Requests `i` and `j` carry one key and timestamp, and both are accepted. */
  predicate BothAccepted<K(==)>(reqs: seq<Request<K>>, window: Millis, i: nat, j: nat)
    requires i < j < |reqs|
  {
    && reqs[i].key == reqs[j].key && reqs[i].ts == reqs[j].ts
    && PrunedRun(reqs, window).verdicts[i].Accepted? && PrunedRun(reqs, window).verdicts[j].Accepted?
  }

  predicate AcceptsTwice(reqs: seq<Request<string>>, window: Millis) {
    exists i: nat, j: nat :: i < j < |reqs| && BothAccepted(reqs, window, i, j)
  }

  /** A clock that never runs backwards never steps back in this sense. */
  lemma SteadyClock(clock: seq<Millis>, window: Millis)
    requires forall i, j :: 0 <= i < j < |clock| ==> clock[i] <= clock[j]
    ensures !StepsBack(clock, window)
  {
  }

  /** The same request at readings `i` and `j`, and other business in between. */
  function Repeated(clock: seq<Millis>, i: nat, j: nat, ts: Millis): (reqs: seq<Request<string>>)
    ensures |reqs| == |clock|
  {
    seq(|clock|, n requires 0 <= n < |clock| =>
      if n == i || n == j then Request("again", ts, clock[n]) else Request("other", 0, clock[n]))
  }

  /** Up to reading `j` the repeated key is remembered only between `i` and `k`. */
  lemma {:induction false} RepeatedForgotten(clock: seq<Millis>, window: Millis, i: nat, k: nat, j: nat, ts: Millis, n: nat)
    requires i < k < j < |clock| && n <= j && ts < Lower(clock[k], window)
    ensures var m := PrunedRun(Repeated(clock, i, j, ts)[..n], window).seen;
            "again" in m ==> i < n <= k && m["again"] == ts
  {
    hide PrunedRun;
    var reqs := Repeated(clock, i, j, ts);
    if n == 0 {
      NothingRemembered(reqs, window);
    } else {
      RepeatedForgotten(clock, window, i, k, j, ts, n - 1);
      PrunedAt(reqs, window, n - 1);
    }
  }

  lemma NothingRemembered<K>(reqs: seq<Request<K>>, window: Millis)
    ensures PrunedRun(reqs[..0], window).seen == map[]
  {
    assert reqs[..0] == [];
  }

  lemma RepeatedAccepted(clock: seq<Millis>, window: Millis, i: nat, k: nat, j: nat)
    requires i < k < j < |clock| && Forgets(clock, window, i, k, j)
    ensures var reqs := Repeated(clock, i, j, OldestCommon(clock[i], clock[j], window));
            Reads(reqs, clock) && AcceptsTwice(reqs, window)
  {
    hide PrunedRun;
    var ts := OldestCommon(clock[i], clock[j], window);
    var reqs := Repeated(clock, i, j, ts);
    RepeatedForgotten(clock, window, i, k, j, ts, i);
    RepeatedForgotten(clock, window, i, k, j, ts, j);
    PrunedAt(reqs, window, i);
    PrunedAt(reqs, window, j);
    assert BothAccepted(reqs, window, i, j);
  }

  lemma OldestIsForgottenFirst(x: Millis, y: Millis, ts: Millis, window: Millis)
    requires InWindow(ts, x, window) && InWindow(ts, y, window)
    ensures var oldest := OldestCommon(x, y, window); InWindow(oldest, x, window) && InWindow(oldest, y, window) && oldest <= ts
  {
  }

  lemma TwiceNeedsStepBack(reqs: seq<Request<string>>, clock: seq<Millis>, window: Millis)
    requires Reads(reqs, clock) && AcceptsTwice(reqs, window)
    ensures StepsBack(clock, window)
  {
    hide PrunedRun, OldestCommon, InWindow, Lower;
    var i: nat, j: nat :| i < j < |reqs| && BothAccepted(reqs, window, i, j);
    ForgottenBetween(reqs, window, i, j);
    var k: nat :| i < k < j && reqs[i].ts < Lower(reqs[k].now, window);
    OldestIsForgottenFirst(clock[i], clock[j], reqs[i].ts, window);
    assert Forgets(clock, window, i, k, j);
  }

  /** For any clock readings and window: some requests at these readings get one key
      and timestamp accepted twice exactly when the clock steps back so far that a
      reading forgets what an earlier and a later one share. */
  lemma ClockSteppingBackReadmits(clock: seq<Millis>, window: Millis)
    ensures (exists reqs :: Reads(reqs, clock) && AcceptsTwice(reqs, window)) <==> StepsBack(clock, window)
  {
    hide PrunedRun, Forgets;
    forall reqs: seq<Request<string>> | Reads(reqs, clock) && AcceptsTwice(reqs, window) ensures StepsBack(clock, window) {
      TwiceNeedsStepBack(reqs, clock, window);
    }
    if StepsBack(clock, window) {
      var i: nat, k: nat, j: nat :| i < k < j < |clock| && Forgets(clock, window, i, k, j);
      RepeatedAccepted(clock, window, i, k, j);
    }
  }

  // ---- Key format -------------------------------------------------------

  /** The key text for a message kind, a peer and a nonce. */
  function ScopedKey(kind: string, peer: string, nonce: string): string {
    (kind + ":" + peer) + ":" + nonce
  }

  lemma {:induction false} SplitAtColonUnique(a: string, b: string, c: string, d: string)
    requires ':' !in a && ':' !in c
    requires a + ":" + b == c + ":" + d
    ensures a == c && b == d
  {
    var s := a + ":" + b;
    assert forall i :: 0 <= i < |c| ==> s[i] == c[i] && s[i] != ':';
    assert forall i :: 0 <= i < |a| ==> s[i] == a[i] && s[i] != ':';
    assert s[|a|] == ':' && s[|c|] == ':';
    assert a == s[..|a|] && c == s[..|c|];
    assert b == s[|a| + 1..] && d == s[|c| + 1..];
  }

  /** Different kinds, peers or nonces never share a replay key: peer ids
      (base58) and nonces (base64) hold no colon. */
  lemma ScopedKeysInjective(kind: string, peer: string, nonce: string, kind': string, peer': string, nonce': string)
    requires ':' !in kind && ':' !in peer && ':' !in kind' && ':' !in peer'
    requires ScopedKey(kind, peer, nonce) == ScopedKey(kind', peer', nonce')
    ensures kind == kind' && peer == peer' && nonce == nonce'
  {
    assert ScopedKey(kind, peer, nonce) == kind + ":" + (peer + ":" + nonce);
    assert ScopedKey(kind', peer', nonce') == kind' + ":" + (peer' + ":" + nonce');
    SplitAtColonUnique(kind, peer + ":" + nonce, kind', peer' + ":" + nonce');
    SplitAtColonUnique(peer, nonce, peer', nonce');
  }
}
