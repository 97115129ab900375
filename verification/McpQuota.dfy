/** The per-token quota of blueprints/mcp_http.py: one pruned bucket of admission times for each
 * (token, scope) pair, and the proof that it decides like a limiter that forgets nothing.
 */
module McpQuota {

  /** So many admissions in so many seconds. */
  datatype Limit = Limit(count: int, window: nat)

  /** One check: which token asks for which scope, and when. */
  datatype Call = Call(jti: string, scope: string, at: real)

  type Limits = string -> Limit

  // ---------------------------------------------------------------- the bucket

  function KeyOf(jti: string, scope: string): string {
    jti + "|" + scope
  }

  /** The times from the first one on that is not before `cutoff`. */
  function Fresh(bucket: seq<real>, cutoff: real): seq<real> {
    if bucket != [] && bucket[0] < cutoff then Fresh(bucket[1..], cutoff) else bucket
  }

  function BucketOf(buckets: map<string, seq<real>>, key: string): seq<real> {
    if key in buckets then buckets[key] else []
  }

  /** Whether a call is admitted, and the buckets after it. */
  function Checked(buckets: map<string, seq<real>>, c: Call, limits: Limits): (bool, map<string, seq<real>>) {
    if c.jti == "" then (false, buckets)
    else
      var limit := limits(c.scope);
      var key := KeyOf(c.jti, c.scope);
      var recent := Fresh(BucketOf(buckets, key), c.at - limit.window as real);
      if |recent| >= limit.count then (false, buckets[key := recent])
      else (true, buckets[key := recent + [c.at]])
  }

  /** The check as it runs, popping and appending in the dictionary of buckets. */
  class ScopeQuota {
    var buckets: map<string, seq<real>>

    constructor ()
      ensures buckets == map[]
    {
      buckets := map[];
    }

    method WithinScopeQuota(c: Call, limits: Limits) returns (ok: bool)
      modifies this
      ensures (ok, buckets) == Checked(old(buckets), c, limits)
    {
      if c.jti == "" { return false; }
      var limit := limits(c.scope);
      var cutoff := c.at - limit.window as real;
      var key := KeyOf(c.jti, c.scope);
      if key !in buckets { buckets := buckets[key := []]; }
      while buckets[key] != [] && buckets[key][0] < cutoff
        invariant key in buckets
        invariant buckets == old(buckets)[key := buckets[key]]
        invariant Fresh(buckets[key], cutoff) == Fresh(BucketOf(old(buckets), key), cutoff)
        decreases |buckets[key]|
      {
        buckets := buckets[key := buckets[key][1..]];
      }
      assert Fresh(buckets[key], cutoff) == buckets[key];
      if |buckets[key]| >= limit.count { return false; }
      ghost var recent := buckets[key];
      assert recent == Fresh(BucketOf(old(buckets), key), cutoff);
      buckets := buckets[key := buckets[key] + [c.at]];
      assert buckets == old(buckets)[key := recent + [c.at]];
      return true;
    }
  }

  // ---------------------------------------------------------------- the reference limiter

  /** The admission times of one (token, scope) pair in a history of admitted calls. */
  function Times(history: seq<Call>, jti: string, scope: string): seq<real> {
    if history == [] then []
    else
      var last := history[|history| - 1];
      Times(history[..|history| - 1], jti, scope)
      + if last.jti == jti && last.scope == scope then [last.at] else []
  }

  /** How many of these times lie in the closed interval from `from` to `to`. */
  function CountIn(times: seq<real>, from: real, to: real): nat {
    if times == [] then 0
    else CountIn(times[..|times| - 1], from, to) + if from <= times[|times| - 1] <= to then 1 else 0
  }

  /** The limiter that keeps everything: a call is admitted if the pair has fewer than `count`
    * admissions in the window that ends now. */
  predicate Admits(history: seq<Call>, c: Call, limits: Limits) {
    && c.jti != ""
    && CountIn(Times(history, c.jti, c.scope), c.at - limits(c.scope).window as real, c.at) < limits(c.scope).count
  }

  /** The history after a call that was, or was not, admitted. */
  function After(history: seq<Call>, c: Call, ok: bool): seq<Call> {
    if ok then history + [c] else history
  }

  // ---------------------------------------------------------------- runs of both

  /** The decisions and the buckets after a run of the pruned limiter. */
  function Decisions(buckets: map<string, seq<real>>, calls: seq<Call>, limits: Limits): seq<bool>
    decreases |calls|
  {
    if calls == [] then []
    else
      var (ok, after) := Checked(buckets, calls[0], limits);
      [ok] + Decisions(after, calls[1..], limits)
  }

  function Reference(history: seq<Call>, calls: seq<Call>, limits: Limits): seq<bool>
    decreases |calls|
  {
    if calls == [] then []
    else
      var ok := Admits(history, calls[0], limits);
      [ok] + Reference(After(history, calls[0], ok), calls[1..], limits)
  }

  /** The admitted calls of a run. */
  function Admitted(history: seq<Call>, calls: seq<Call>, limits: Limits): seq<Call>
    decreases |calls|
  {
    if calls == [] then history
    else Admitted(After(history, calls[0], Admits(history, calls[0], limits)), calls[1..], limits)
  }

  /** The clock never goes back. */
  predicate Ordered(calls: seq<Call>) {
    forall i, j :: 0 <= i < j < |calls| ==> calls[i].at <= calls[j].at
  }

  predicate NoBar(scope: string) {
    forall i :: 0 <= i < |scope| ==> scope[i] != '|'
  }

  predicate NoBars(calls: seq<Call>) {
    forall i :: 0 <= i < |calls| ==> NoBar(calls[i].scope)
  }

  // ---------------------------------------------------------------- keys

  /** Without a bar in the scopes, different pairs have different keys: the last bar of the key is the
    * one that was put there. */
  lemma KeysAreDistinct(jti: string, scope: string, jti': string, scope': string)
    requires NoBar(scope) && NoBar(scope') && KeyOf(jti, scope) == KeyOf(jti', scope')
    ensures jti == jti' && scope == scope'
  {
    var key := KeyOf(jti, scope);
    assert key[|jti|] == '|' && key[|jti'|] == '|';
    forall i | |jti| < i < |key| ensures key[i] != '|' {
      assert key[i] == scope[i - |jti| - 1];
    }
    forall i | |jti'| < i < |key| ensures key[i] != '|' {
      assert key[i] == scope'[i - |jti'| - 1];
    }
    assert jti == key[..|jti|] && jti' == key[..|jti'|];
    assert scope == key[|jti| + 1..] && scope' == key[|jti'| + 1..];
  }

  /** Two pairs share a bucket exactly when the longer token is the shorter one, a bar and some text, and
    * the shorter token's scope is that text, a bar and the other scope. */
  lemma KeysCollideIff(jti: string, scope: string, jti': string, scope': string)
    requires |jti| < |jti'|
    ensures KeyOf(jti, scope) == KeyOf(jti', scope')
       <==> exists mid: string :: jti' == jti + "|" + mid && scope == mid + "|" + scope'
  {
    var a, b := KeyOf(jti, scope), KeyOf(jti', scope');
    if a == b {
      var mid := jti'[|jti| + 1..];
      assert jti == a[..|jti|] && jti' == a[..|jti'|];
      assert jti'[|jti|] == a[|jti|] == '|';
      assert jti' == jti + "|" + mid;
      assert scope == a[|jti| + 1..] && scope == mid + "|" + scope';
    }
    if mid: string :| jti' == jti + "|" + mid && scope == mid + "|" + scope' {
      assert jti + "|" + (mid + "|" + scope') == (jti + "|" + mid) + "|" + scope';
    }
  }

  // ---------------------------------------------------------------- the bucket mirrors the history

  predicate Sorted(times: seq<real>) {
    forall i, j :: 0 <= i < j < |times| ==> times[i] <= times[j]
  }

  /** The bucket is what is left of the pair's history once everything before `cutoff` is forgotten,
    * and perhaps some of it is still there. */
  ghost predicate Mirrors(bucket: seq<real>, times: seq<real>, cutoff: real) {
    && Sorted(times) && |bucket| <= |times| && bucket == times[|times| - |bucket|..]
    && forall k :: 0 <= k < |times| - |bucket| ==> times[k] < cutoff
  }

  lemma {:induction false} FreshMirrors(bucket: seq<real>, times: seq<real>, before: real, cutoff: real)
    requires Mirrors(bucket, times, before) && before <= cutoff
    ensures Mirrors(Fresh(bucket, cutoff), times, cutoff)
    ensures forall k :: 0 <= k < |Fresh(bucket, cutoff)| ==> Fresh(bucket, cutoff)[k] >= cutoff
  {
    if bucket != [] && bucket[0] < cutoff {
      assert bucket[0] == times[|times| - |bucket|];
      assert bucket[1..] == times[|times| - |bucket| + 1..];
      FreshMirrors(bucket[1..], times, cutoff, cutoff);
    } else if bucket != [] {
      forall k | 0 <= k < |bucket| ensures bucket[k] >= cutoff {
        assert bucket[k] == times[|times| - |bucket| + k] && bucket[0] == times[|times| - |bucket|];
      }
    }
  }

  lemma {:induction false} CountSplits(a: seq<real>, b: seq<real>, from: real, to: real)
    ensures CountIn(a + b, from, to) == CountIn(a, from, to) + CountIn(b, from, to)
  {
    if b == [] {
      assert a + b == a;
    } else {
      assert (a + b)[..|a + b| - 1] == a + b[..|b| - 1];
      CountSplits(a, b[..|b| - 1], from, to);
    }
  }

  lemma {:induction false} CountAll(times: seq<real>, from: real, to: real)
    requires forall k :: 0 <= k < |times| ==> from <= times[k] <= to
    ensures CountIn(times, from, to) == |times|
  {
    if times != [] { CountAll(times[..|times| - 1], from, to); }
  }

  lemma {:induction false} CountNone(times: seq<real>, from: real, to: real)
    requires forall k :: 0 <= k < |times| ==> !(from <= times[k] <= to)
    ensures CountIn(times, from, to) == 0
  {
    if times != [] { CountNone(times[..|times| - 1], from, to); }
  }

  /** The length of the pruned bucket is the number of admissions in the window. */
  lemma FreshCounts(bucket: seq<real>, times: seq<real>, cutoff: real, now: real)
    requires Mirrors(bucket, times, cutoff)
    requires forall k :: 0 <= k < |bucket| ==> bucket[k] >= cutoff
    requires forall k :: 0 <= k < |times| ==> times[k] <= now
    ensures |bucket| == CountIn(times, cutoff, now)
  {
    var gone := times[..|times| - |bucket|];
    assert times == gone + bucket;
    CountSplits(gone, bucket, cutoff, now);
    forall k | 0 <= k < |bucket| ensures bucket[k] <= now {
      assert bucket[k] == times[|times| - |bucket| + k];
    }
    CountNone(gone, cutoff, now);
    CountAll(bucket, cutoff, now);
  }

  /** The bucket of a pair mirrors its history, as far as the window of its scope reaches. */
  ghost predicate MirrorAt(buckets: map<string, seq<real>>, history: seq<Call>, now: real, limits: Limits,
                           jti: string, scope: string) {
    Mirrors(BucketOf(buckets, KeyOf(jti, scope)), Times(history, jti, scope), now - limits(scope).window as real)
  }

  /** Admitted calls in the order of their times, none of them later than now. */
  ghost predicate Past(history: seq<Call>, now: real) {
    Ordered(history) && forall k :: 0 <= k < |history| ==> history[k].at <= now
  }

  ghost predicate AllMirror(buckets: map<string, seq<real>>, history: seq<Call>, now: real, limits: Limits) {
    && Past(history, now)
    && forall jti, scope :: NoBar(scope) ==> MirrorAt(buckets, history, now, limits, jti, scope)
  }

  lemma {:induction false} TimesAreOrdered(history: seq<Call>, jti: string, scope: string, now: real)
    requires Past(history, now)
    ensures Sorted(Times(history, jti, scope))
    ensures forall k :: 0 <= k < |Times(history, jti, scope)| ==> Times(history, jti, scope)[k] <= now
  {
    if history != [] {
      var last := history[|history| - 1];
      TimesAreOrdered(history[..|history| - 1], jti, scope, last.at);
    }
  }

  lemma TimesAppend(history: seq<Call>, c: Call, jti: string, scope: string)
    ensures Times(history + [c], jti, scope)
         == Times(history, jti, scope) + if c.jti == jti && c.scope == scope then [c.at] else []
  {
    assert (history + [c])[..|history|] == history;
  }

  /** A bucket that mirrors its history still does when the clock has moved on. */
  lemma MirrorsLater(bucket: seq<real>, times: seq<real>, before: real, after: real)
    requires Mirrors(bucket, times, before) && before <= after
    ensures Mirrors(bucket, times, after)
  {
  }

  /** The pruned bucket is as long as the reference count is high. */
  lemma BucketCounts(bucket: seq<real>, times: seq<real>, before: real, cutoff: real, at: real)
    requires Mirrors(bucket, times, before) && before <= cutoff
    requires forall k :: 0 <= k < |times| ==> times[k] <= at
    ensures |Fresh(bucket, cutoff)| == CountIn(times, cutoff, at)
  {
    FreshMirrors(bucket, times, before, cutoff);
    FreshCounts(Fresh(bucket, cutoff), times, cutoff, at);
  }

  /** What a check leaves in a bucket: untouched without a token, else pruned, plus now if admitted. */
  function Left(bucket: seq<real>, cutoff: real, at: real, token: bool, ok: bool): seq<real> {
    if !token then bucket else if ok then Fresh(bucket, cutoff) + [at] else Fresh(bucket, cutoff)
  }

  /** Whatever a check leaves in a bucket is a mirror again. */
  lemma BucketMirrors(bucket: seq<real>, times: seq<real>, before: real, cutoff: real, at: real, token: bool, ok: bool)
    requires Mirrors(bucket, times, before) && before <= cutoff
    requires forall k :: 0 <= k < |times| ==> times[k] <= at
    requires ok ==> token
    ensures Mirrors(Left(bucket, cutoff, at, token, ok), if ok then times + [at] else times, cutoff)
  {
    if !token {
      MirrorsLater(bucket, times, before, cutoff);
    } else {
      FreshMirrors(bucket, times, before, cutoff);
      if ok { MirrorsGrows(Fresh(bucket, cutoff), times, cutoff, at); }
    }
  }

  /** What one check leaves in the bucket of its own pair. */
  lemma OwnBucket(buckets: map<string, seq<real>>, c: Call, limits: Limits)
    ensures var (ok, after) := Checked(buckets, c, limits);
            var bucket := BucketOf(buckets, KeyOf(c.jti, c.scope));
            var recent := Fresh(bucket, c.at - limits(c.scope).window as real);
            && ok == (c.jti != "" && |recent| < limits(c.scope).count)
            && BucketOf(after, KeyOf(c.jti, c.scope))
               == Left(bucket, c.at - limits(c.scope).window as real, c.at, c.jti != "", ok)
  {
  }

  lemma PastLater(history: seq<Call>, now: real, later: real)
    requires Past(history, now) && now <= later
    ensures Past(history, later)
  {
  }

  lemma OwnTimes(history: seq<Call>, c: Call, ok: bool)
    ensures Times(After(history, c, ok), c.jti, c.scope)
         == if ok then Times(history, c.jti, c.scope) + [c.at] else Times(history, c.jti, c.scope)
  {
    TimesAppend(history, c, c.jti, c.scope);
  }

  /** A check decides like the reference limiter. */
  lemma OwnDecision(buckets: map<string, seq<real>>, history: seq<Call>, now: real, c: Call, limits: Limits)
    requires MirrorAt(buckets, history, now, limits, c.jti, c.scope) && Past(history, c.at) && now <= c.at
    ensures Checked(buckets, c, limits).0 == Admits(history, c, limits)
  {
    var window := limits(c.scope).window as real;
    TimesAreOrdered(history, c.jti, c.scope, c.at);
    BucketCounts(BucketOf(buckets, KeyOf(c.jti, c.scope)), Times(history, c.jti, c.scope),
                 now - window, c.at - window, c.at);
    OwnBucket(buckets, c, limits);
  }

  lemma TimesArePast(history: seq<Call>, jti: string, scope: string, now: real)
    requires Past(history, now)
    ensures forall k :: 0 <= k < |Times(history, jti, scope)| ==> Times(history, jti, scope)[k] <= now
  {
    TimesAreOrdered(history, jti, scope, now);
  }

  lemma BucketMirrorsLater(bucket: seq<real>, times: seq<real>, now: real, window: real, at: real, token: bool,
                           ok: bool)
    requires Mirrors(bucket, times, now - window) && now <= at
    requires forall k :: 0 <= k < |times| ==> times[k] <= at
    requires ok ==> token
    ensures Mirrors(Left(bucket, at - window, at, token, ok), if ok then times + [at] else times, at - window)
  {
    BucketMirrors(bucket, times, now - window, at - window, at, token, ok);
  }

  /** A check keeps the bucket of its own pair a mirror. */
  lemma OwnPairMirrors(buckets: map<string, seq<real>>, history: seq<Call>, now: real, c: Call, limits: Limits)
    requires MirrorAt(buckets, history, now, limits, c.jti, c.scope) && Past(history, c.at) && now <= c.at
    ensures var (ok, after) := Checked(buckets, c, limits);
            MirrorAt(after, After(history, c, ok), c.at, limits, c.jti, c.scope)
  {
    var (ok, after) := Checked(buckets, c, limits);
    var window, key := limits(c.scope).window as real, KeyOf(c.jti, c.scope);
    var bucket, times := BucketOf(buckets, key), Times(history, c.jti, c.scope);
    var left, grown := Left(bucket, c.at - window, c.at, c.jti != "", ok), if ok then times + [c.at] else times;
    assert ok ==> c.jti != "" by { OwnBucket(buckets, c, limits); }
    assert Mirrors(left, grown, c.at - window) by {
      TimesArePast(history, c.jti, c.scope, c.at);
      BucketMirrorsLater(bucket, times, now, window, c.at, c.jti != "", ok);
    }
    assert BucketOf(after, key) == left by { OwnBucket(buckets, c, limits); }
    assert Times(After(history, c, ok), c.jti, c.scope) == grown by { OwnTimes(history, c, ok); }
    MirrorFrom(after, After(history, c, ok), c.at, limits, c.jti, c.scope, left, grown);
  }

  lemma MirrorFrom(buckets: map<string, seq<real>>, history: seq<Call>, at: real, limits: Limits, jti: string,
                   scope: string, bucket: seq<real>, times: seq<real>)
    requires BucketOf(buckets, KeyOf(jti, scope)) == bucket && Times(history, jti, scope) == times
    requires Mirrors(bucket, times, at - limits(scope).window as real)
    ensures MirrorAt(buckets, history, at, limits, jti, scope)
  {
  }

  lemma OtherTimes(history: seq<Call>, c: Call, ok: bool, jti: string, scope: string)
    requires !(jti == c.jti && scope == c.scope)
    ensures Times(After(history, c, ok), jti, scope) == Times(history, jti, scope)
  {
    TimesAppend(history, c, jti, scope);
  }

  lemma OtherPairMirrors(buckets: map<string, seq<real>>, history: seq<Call>, now: real, c: Call, limits: Limits,
                         jti: string, scope: string)
    requires MirrorAt(buckets, history, now, limits, jti, scope) && now <= c.at
    requires NoBar(c.scope) && NoBar(scope) && !(jti == c.jti && scope == c.scope)
    ensures var (ok, after) := Checked(buckets, c, limits);
            MirrorAt(after, After(history, c, ok), c.at, limits, jti, scope)
  {
    OtherTimes(history, c, Checked(buckets, c, limits).0, jti, scope);
    OtherPairUntouched(buckets, c, limits, jti, scope);
    MirrorsLater(BucketOf(buckets, KeyOf(jti, scope)), Times(history, jti, scope),
                 now - limits(scope).window as real, c.at - limits(scope).window as real);
  }

  lemma PairAgrees(buckets: map<string, seq<real>>, history: seq<Call>, now: real, c: Call, limits: Limits,
                   jti: string, scope: string)
    requires AllMirror(buckets, history, now, limits) && now <= c.at && NoBar(c.scope) && NoBar(scope)
    ensures var (ok, after) := Checked(buckets, c, limits);
            MirrorAt(after, After(history, c, ok), c.at, limits, jti, scope)
  {
    PastLater(history, now, c.at);
    if jti == c.jti && scope == c.scope { OwnPairMirrors(buckets, history, now, c, limits); }
    else { OtherPairMirrors(buckets, history, now, c, limits, jti, scope); }
  }

  lemma PastGrows(history: seq<Call>, now: real, c: Call, ok: bool)
    requires Past(history, now) && now <= c.at
    ensures Past(After(history, c, ok), c.at)
  {
  }

  /** One check decides like the reference limiter and keeps every bucket a mirror. */
  lemma CheckAgrees(buckets: map<string, seq<real>>, history: seq<Call>, now: real, c: Call, limits: Limits)
    requires AllMirror(buckets, history, now, limits) && now <= c.at && NoBar(c.scope)
    ensures var (ok, after) := Checked(buckets, c, limits);
            ok == Admits(history, c, limits) && AllMirror(after, After(history, c, ok), c.at, limits)
  {
    var (ok, after) := Checked(buckets, c, limits);
    PastLater(history, now, c.at);
    assert MirrorAt(buckets, history, now, limits, c.jti, c.scope);
    OwnDecision(buckets, history, now, c, limits);
    PastGrows(history, now, c, ok);
    forall jti, scope | NoBar(scope) ensures MirrorAt(after, After(history, c, ok), c.at, limits, jti, scope) {
      PairAgrees(buckets, history, now, c, limits, jti, scope);
    }
  }

  /** Buckets that mirror the history still do when the clock has moved on. */
  lemma AllMirrorLater(buckets: map<string, seq<real>>, history: seq<Call>, now: real, later: real, limits: Limits)
    requires AllMirror(buckets, history, now, limits) && now <= later
    ensures AllMirror(buckets, history, later, limits)
  {
    PastLater(history, now, later);
    forall jti, scope | NoBar(scope) ensures MirrorAt(buckets, history, later, limits, jti, scope) {
      assert MirrorAt(buckets, history, now, limits, jti, scope);
      var window := limits(scope).window as real;
      MirrorsLater(BucketOf(buckets, KeyOf(jti, scope)), Times(history, jti, scope), now - window, later - window);
    }
  }

  /** One more check admits or does not admit after the ones before. */
  lemma {:induction false} AdmittedAppend(history: seq<Call>, calls: seq<Call>, c: Call, limits: Limits)
    ensures var before := Admitted(history, calls, limits);
            Admitted(history, calls + [c], limits) == After(before, c, Admits(before, c, limits))
    decreases |calls|
  {
    if calls == [] {
      assert [] + [c] == [c] && [c][1..] == [];
    } else {
      assert (calls + [c])[1..] == calls[1..] + [c];
      AdmittedAppend(After(history, calls[0], Admits(history, calls[0], limits)), calls[1..], c, limits);
    }
  }

  lemma MirrorsGrows(bucket: seq<real>, times: seq<real>, cutoff: real, at: real)
    requires Mirrors(bucket, times, cutoff) && forall k :: 0 <= k < |times| ==> times[k] <= at
    ensures Mirrors(bucket + [at], times + [at], cutoff)
  {
  }

  /** A check never touches the bucket of another pair. */
  lemma OtherPairUntouched(buckets: map<string, seq<real>>, c: Call, limits: Limits, jti: string, scope: string)
    requires NoBar(scope) && NoBar(c.scope) && !(jti == c.jti && scope == c.scope)
    ensures BucketOf(Checked(buckets, c, limits).1, KeyOf(jti, scope)) == BucketOf(buckets, KeyOf(jti, scope))
  {
    if KeyOf(jti, scope) == KeyOf(c.jti, c.scope) { KeysAreDistinct(jti, scope, c.jti, c.scope); }
  }

  lemma {:induction false} RunsAgree(buckets: map<string, seq<real>>, history: seq<Call>, now: real,
                                     calls: seq<Call>, limits: Limits)
    requires AllMirror(buckets, history, now, limits)
    requires Ordered(calls) && NoBars(calls) && (calls != [] ==> now <= calls[0].at)
    ensures Decisions(buckets, calls, limits) == Reference(history, calls, limits)
    decreases |calls|
  {
    if calls != [] {
      CheckAgrees(buckets, history, now, calls[0], limits);
      var (ok, after) := Checked(buckets, calls[0], limits);
      assert calls[1..] != [] ==> calls[1..][0] == calls[1];
      RunsAgree(after, After(history, calls[0], ok), calls[0].at, calls[1..], limits);
    }
  }

  /** On every run with a clock that never goes back, the pruned buckets decide every call exactly as
    * the limiter that keeps the whole admission history. */
  lemma PrunedDecidesLikeFullHistory(calls: seq<Call>, limits: Limits)
    requires Ordered(calls) && NoBars(calls)
    ensures Decisions(map[], calls, limits) == Reference([], calls, limits)
  {
    if calls != [] { RunsAgree(map[], [], calls[0].at, calls, limits); }
  }

  // ---------------------------------------------------------------- how many get through

  /** The `count`-th admission after one is more than a window later. */
  ghost predicate Sparse(times: seq<real>, limit: Limit) {
    && Sorted(times)
    && (limit.count <= 0 ==> times == [])
    && forall i, j :: 0 <= i < j < |times| && j - i >= limit.count ==> times[j] - times[i] > limit.window as real
  }

  /** Sorted times from `from` on and up to `to` are all counted. */
  lemma CountFrom(times: seq<real>, i: nat, from: real, to: real)
    requires Sorted(times) && i < |times| && from <= times[i]
    requires forall k :: 0 <= k < |times| ==> times[k] <= to
    ensures CountIn(times, from, to) >= |times| - i
  {
    assert times == times[..i] + times[i..];
    CountSplits(times[..i], times[i..], from, to);
    forall k | 0 <= k < |times| - i ensures from <= times[i..][k] <= to {
      assert times[i..][k] == times[i + k];
    }
    CountAll(times[i..], from, to);
  }

  lemma LateEnough(times: seq<real>, i: nat, at: real, limit: Limit)
    requires Sorted(times) && (forall k :: 0 <= k < |times| ==> times[k] <= at)
    requires CountIn(times, at - limit.window as real, at) < limit.count
    requires i < |times| && |times| - i >= limit.count
    ensures at - times[i] > limit.window as real
  {
    var from := at - limit.window as real;
    if from <= times[i] { CountFrom(times, i, from, at); }
  }

  lemma AdmissionStaysSparse(times: seq<real>, at: real, limit: Limit)
    requires Sparse(times, limit) && (forall k :: 0 <= k < |times| ==> times[k] <= at)
    requires CountIn(times, at - limit.window as real, at) < limit.count
    ensures Sparse(times + [at], limit)
  {
    var n, after := |times|, times + [at];
    assert Sorted(after);
    forall i, j | 0 <= i < j < |after| && j - i >= limit.count ensures after[j] - after[i] > limit.window as real {
      if j == n { LateEnough(times, i, at, limit); } else { assert times[j] - times[i] > limit.window as real; }
    }
  }

  ghost predicate AllSparse(history: seq<Call>, now: real, limits: Limits) {
    && Past(history, now)
    && forall jti, scope :: Sparse(Times(history, jti, scope), limits(scope))
  }

  lemma PairStaysSparse(history: seq<Call>, now: real, c: Call, limits: Limits, jti: string, scope: string)
    requires Past(history, now) && now <= c.at && Sparse(Times(history, jti, scope), limits(scope))
    ensures Sparse(Times(After(history, c, Admits(history, c, limits)), jti, scope), limits(scope))
  {
    TimesAppend(history, c, jti, scope);
    TimesAreOrdered(history, jti, scope, c.at);
    if Admits(history, c, limits) && c.jti == jti && c.scope == scope {
      AdmissionStaysSparse(Times(history, jti, scope), c.at, limits(scope));
    }
  }

  lemma AdmissionKeepsSparse(history: seq<Call>, now: real, c: Call, limits: Limits)
    requires AllSparse(history, now, limits) && now <= c.at
    ensures AllSparse(After(history, c, Admits(history, c, limits)), c.at, limits)
  {
    var h := After(history, c, Admits(history, c, limits));
    forall jti, scope ensures Sparse(Times(h, jti, scope), limits(scope)) {
      PairStaysSparse(history, now, c, limits, jti, scope);
    }
  }

  lemma {:induction false} AdmittedIsSparse(history: seq<Call>, now: real, calls: seq<Call>, limits: Limits)
    requires AllSparse(history, now, limits)
    requires Ordered(calls) && (calls != [] ==> now <= calls[0].at)
    ensures var at := if calls == [] then now else calls[|calls| - 1].at;
            AllSparse(Admitted(history, calls, limits), at, limits)
    decreases |calls|
  {
    if calls != [] {
      var c := calls[0];
      AdmissionKeepsSparse(history, now, c, limits);
      assert calls[1..] != [] ==> calls[1..][0] == calls[1];
      AdmittedIsSparse(After(history, c, Admits(history, c, limits)), c.at, calls[1..], limits);
    }
  }

  lemma {:induction false} CountInRange(times: seq<real>, from: real, to: real, lo: nat, hi: nat)
    requires lo <= hi <= |times|
    requires forall k :: 0 <= k < |times| && from <= times[k] <= to ==> lo <= k < hi
    ensures CountIn(times, from, to) <= hi - lo
  {
    if times != [] {
      var last := |times| - 1;
      if from <= times[last] <= to {
        CountInRange(times[..last], from, to, lo, last);
      } else if hi == |times| {
        if lo <= last { CountInRange(times[..last], from, to, lo, last); }
        else { CountInRange(times[..last], from, to, last, last); }
      } else {
        CountInRange(times[..last], from, to, lo, hi);
      }
    }
  }

  lemma SparseTail(times: seq<real>, limit: Limit)
    requires Sparse(times, limit) && times != []
    ensures Sparse(times[1..], limit)
  {
    var rest := times[1..];
    assert forall k :: 0 <= k < |rest| ==> rest[k] == times[k + 1];
    forall i, j | 0 <= i < j < |rest| && j - i >= limit.count ensures rest[j] - rest[i] > limit.window as real {
      assert times[j + 1] - times[i + 1] > limit.window as real;
    }
  }

  lemma SparseFromStart(times: seq<real>, from: real, limit: Limit)
    requires Sparse(times, limit) && times != [] && from <= times[0]
    ensures CountIn(times, from, from + limit.window as real) <= limit.count
  {
    var to := from + limit.window as real;
    var hi := if limit.count <= |times| then limit.count else |times|;
    forall k | hi <= k < |times| ensures times[k] > to { assert times[k] - times[0] > limit.window as real; }
    CountInRange(times, from, to, 0, hi);
  }

  lemma CountDropFirst(times: seq<real>, from: real, to: real)
    requires times != [] && times[0] < from
    ensures CountIn(times, from, to) == CountIn(times[1..], from, to)
  {
    assert times == [times[0]] + times[1..];
    CountSplits([times[0]], times[1..], from, to);
    CountNone([times[0]], from, to);
  }

  lemma {:induction false} SparseCounts(times: seq<real>, from: real, limit: Limit)
    requires Sparse(times, limit)
    ensures CountIn(times, from, from + limit.window as real) <= if limit.count > 0 then limit.count else 0
  {
    if times != [] {
      if from <= times[0] {
        SparseFromStart(times, from, limit);
      } else {
        SparseTail(times, limit);
        CountDropFirst(times, from, from + limit.window as real);
        SparseCounts(times[1..], from, limit);
      }
    }
  }

  /** For every token and scope, no closed interval of one window holds more than `count` admissions,
    * and a limit of zero or less admits nothing. */
  lemma AtMostCountPerWindow(calls: seq<Call>, limits: Limits, jti: string, scope: string, from: real)
    requires Ordered(calls)
    ensures var limit := limits(scope);
            CountIn(Times(Admitted([], calls, limits), jti, scope), from, from + limit.window as real)
              <= if limit.count > 0 then limit.count else 0
  {
    if calls != [] {
      AdmittedIsSparse([], calls[0].at, calls, limits);
    }
    SparseCounts(Times(Admitted([], calls, limits), jti, scope), from, limits(scope));
  }
}
