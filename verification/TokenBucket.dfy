/** The token-bucket limiter of colab_common: a Lua step over one Redis hash with an EXPIRE.
    The caller's clock is whole seconds; Redis expires the key by its own clock. */
module TokenBucket {
  import opened Basics

  type Rate = r: real | 0.0 < r witness 1.0

  datatype Limit = Limit(capacity: nat, rate: Rate)

  /** The hash stored under the bucket's key. */
  datatype Bucket = Bucket(tokens: int, lastRefill: int)

  /** The hash together with the instant, on Redis's clock, at which it expires. */
  datatype Cell = Cell(bucket: Bucket, expiresAt: real)

  datatype Call = Call(now: int, redisNow: real)

  // ---------- Specification ----------

  function Min(a: int, b: int): int {
    if a <= b then a else b
  }

  /** What the continuous bucket gains in a span of seconds. */
  function Gain(l: Limit, seconds: int): real {
    seconds as real * l.rate
  }

  function Refilled(l: Limit, from: int, to: int): int {
    Gain(l, to - from).Floor
  }

  /** Tokens on hand when a call arrives: a missing bucket is a full one. */
  function OnHand(l: Limit, b: Option<Bucket>, now: int): int {
    match b
    case None => l.capacity
    case Some(k) => Min(l.capacity, k.tokens + Refilled(l, k.lastRefill, now))
  }

  function Admits(l: Limit, b: Option<Bucket>, now: int): bool {
    OnHand(l, b, now) >= 1
  }

  function After(l: Limit, b: Option<Bucket>, now: int): Bucket {
    Bucket(OnHand(l, b, now) - (if Admits(l, b, now) then 1 else 0), now)
  }

  /** Seconds a key lives after each call. */
  function Lifetime(l: Limit): real {
    (Ceil(l.capacity as real / l.rate) + 10) as real
  }

  /** The bucket a call finds: an expired one is gone. */
  function Visible(cell: Option<Cell>, redisNow: real): Option<Bucket> {
    if cell.Some? && redisNow < cell.value.expiresAt then Some(cell.value.bucket) else None
  }

  function Store(l: Limit, cell: Option<Cell>, call: Call): Cell {
    Cell(After(l, Visible(cell, call.redisNow), call.now), call.redisNow + Lifetime(l))
  }

  // ---------- Runs ----------

  /** Answers of a bucket that is never expired. */
  function Answers(l: Limit, b: Option<Bucket>, calls: seq<Call>): (r: seq<bool>)
    ensures |r| == |calls|
    decreases |calls|
  {
    if calls == [] then []
    else [Admits(l, b, calls[0].now)] + Answers(l, Some(After(l, b, calls[0].now)), calls[1..])
  }

  /** Answers of the bucket as stored, with its EXPIRE. */
  function ExpiringAnswers(l: Limit, cell: Option<Cell>, calls: seq<Call>): (r: seq<bool>)
    ensures |r| == |calls|
    decreases |calls|
  {
    if calls == [] then []
    else [Admits(l, Visible(cell, calls[0].redisNow), calls[0].now)]
         + ExpiringAnswers(l, Some(Store(l, cell, calls[0])), calls[1..])
  }

  function Final(l: Limit, b: Option<Bucket>, calls: seq<Call>): (r: Option<Bucket>)
    ensures b.Some? || calls != [] ==> r.Some?
    decreases |calls|
  {
    if calls == [] then b else Final(l, Some(After(l, b, calls[0].now)), calls[1..])
  }

  function Count(answers: seq<bool>): nat {
    if answers == [] then 0 else (if answers[0] then 1 else 0) + Count(answers[1..])
  }

  ghost predicate NonDecreasing(calls: seq<Call>) {
    forall i, j :: 0 <= i <= j < |calls| ==> calls[i].now <= calls[j].now
  }

  /** Over every idle period the Redis clock gains less than eleven seconds on the caller's. */
  ghost predicate Paced(calls: seq<Call>) {
    forall i :: 0 <= i < |calls| - 1 ==>
      calls[i + 1].redisNow - calls[i].redisNow < (calls[i + 1].now - calls[i].now) as real + 11.0
  }

  ghost predicate InRange(l: Limit, b: Bucket) {
    0 <= b.tokens <= l.capacity
  }

  // ---------- Arithmetic ----------

  lemma {:induction false} RefilledBounds(l: Limit, a: int, b: int)
    requires a <= b
    ensures 0 <= Refilled(l, a, b)
    ensures Refilled(l, a, b) as real <= Gain(l, b - a) < Refilled(l, a, b) as real + 1.0
  {
  }

  lemma {:induction false} RefilledSplits(l: Limit, a: int, b: int, c: int)
    ensures Refilled(l, a, b) + Refilled(l, b, c) <= Refilled(l, a, c)
  {
    var x, y := (b - a) as real, (c - b) as real;
    assert (x + y) * l.rate == x * l.rate + y * l.rate;
    assert (c - a) as real == x + y;
  }

  lemma {:induction false} AfterInRange(l: Limit, b: Option<Bucket>, now: int)
    requires b.Some? ==> InRange(l, b.value) && b.value.lastRefill <= now
    ensures InRange(l, After(l, b, now))
  {
    if b.Some? { RefilledBounds(l, b.value.lastRefill, now); }
  }

  /** What one call does, in tokens: a missing bucket is a full one, a kept one has gained the whole tokens
      of the time passed, up to its capacity; a token on hand is taken, and the time is noted. */
  lemma {:induction false} OneCall(l: Limit, b: Option<Bucket>, now: int)
    ensures var gained := if b.None? then l.capacity
                          else b.value.tokens + ((now - b.value.lastRefill) as real * l.rate).Floor;
            var tokens := if gained <= l.capacity then gained else l.capacity;
            && (Admits(l, b, now) <==> tokens >= 1)
            && After(l, b, now) == Bucket(if tokens >= 1 then tokens - 1 else tokens, now)
  {
  }

  // ---------- Expiry is invisible ----------

  /** An idle period long enough for the key to expire has refilled the bucket to capacity. */
  lemma {:induction false} ExpiredIsFull(l: Limit, b: Bucket, now: int)
    requires InRange(l, b) && Ceil(l.capacity as real / l.rate) <= now - b.lastRefill
    ensures After(l, Some(b), now) == After(l, None, now)
    ensures Admits(l, Some(b), now) == Admits(l, None, now)
  {
    var idle, q := (now - b.lastRefill) as real, l.capacity as real / l.rate;
    assert q * l.rate == l.capacity as real;
    assert q <= idle;
    assert q * l.rate <= idle * l.rate by { assert (idle - q) * l.rate >= 0.0; }
    assert l.capacity <= Refilled(l, b.lastRefill, now);
  }

  /** A call within the pace finds the stored bucket, or one that is as good as full. */
  lemma {:induction false} VisibleIsEquivalent(l: Limit, b: Bucket, last: Call, call: Call)
    requires InRange(l, b) && b.lastRefill == last.now <= call.now
    requires call.redisNow - last.redisNow < (call.now - last.now) as real + 11.0
    ensures var seen := Visible(Some(Cell(b, last.redisNow + Lifetime(l))), call.redisNow);
            && After(l, seen, call.now) == After(l, Some(b), call.now)
            && Admits(l, seen, call.now) == Admits(l, Some(b), call.now)
  {
    if last.redisNow + Lifetime(l) <= call.redisNow { ExpiredIsFull(l, b, call.now); }
  }

  lemma {:induction false} ExpiryInvisibleFrom(l: Limit, b: Bucket, calls: seq<Call>, k: nat)
    requires 0 < k <= |calls| && NonDecreasing(calls) && Paced(calls)
    requires InRange(l, b) && b.lastRefill == calls[k - 1].now
    ensures ExpiringAnswers(l, Some(Cell(b, calls[k - 1].redisNow + Lifetime(l))), calls[k..])
            == Answers(l, Some(b), calls[k..])
    decreases |calls| - k
  {
    if k < |calls| {
      var c := calls[k];
      assert calls[(k - 1) + 1] == c;
      VisibleIsEquivalent(l, b, calls[k - 1], c);
      AfterInRange(l, Some(b), c.now);
      ExpiryInvisibleFrom(l, After(l, Some(b), c.now), calls, k + 1);
      assert calls[k..][1..] == calls[k + 1..];
    }
  }

  /** The bucket with EXPIRE answers every non-decreasing, paced sequence of calls as a bucket that
      never expires does. */
  lemma {:induction false} ExpiryIsInvisible(l: Limit, calls: seq<Call>)
    requires NonDecreasing(calls) && Paced(calls)
    ensures ExpiringAnswers(l, None, calls) == Answers(l, None, calls)
  {
    if calls != [] {
      AfterInRange(l, None, calls[0].now);
      ExpiryInvisibleFrom(l, After(l, None, calls[0].now), calls, 1);
    }
  }

  // ---------- Admission bounds ----------

  lemma {:induction false} AdmittedFrom(l: Limit, b: Bucket, calls: seq<Call>)
    requires InRange(l, b) && calls != [] && NonDecreasing(calls) && b.lastRefill <= calls[0].now
    ensures Count(Answers(l, Some(b), calls)) <= b.tokens + Refilled(l, b.lastRefill, calls[|calls| - 1].now)
    decreases |calls|
  {
    var now, b' := calls[0].now, After(l, Some(b), calls[0].now);
    var rest, tail := calls[1..], Answers(l, Some(b'), calls[1..]);
    assert Answers(l, Some(b), calls)[1..] == tail;
    AfterInRange(l, Some(b), now);
    if rest != [] {
      AdmittedFrom(l, b', rest);
      RefilledSplits(l, b.lastRefill, now, calls[|calls| - 1].now);
    }
  }

  function Repeat<T>(x: T, n: nat): (r: seq<T>)
    ensures |r| == n && forall i :: 0 <= i < n ==> r[i] == x
  {
    seq(n, _ => x)
  }

  lemma {:induction false} RepeatUnfolds<T>(x: T, n: nat, rest: seq<T>)
    requires n > 0
    ensures (Repeat(x, n) + rest)[1..] == Repeat(x, n - 1) + rest
  {
  }

  /** Nothing is refilled between calls at one instant. */
  lemma {:induction false} NothingRefilledAtOnce(l: Limit, tokens: int, now: int)
    requires tokens <= l.capacity
    ensures OnHand(l, Some(Bucket(tokens, now)), now) == tokens
  {
    assert Gain(l, 0) == 0.0;
  }

  lemma {:induction false} LifetimeIsPositive(l: Limit)
    ensures Lifetime(l) >= 10.0
  {
    assert l.capacity as real / l.rate >= 0.0;
  }

  /** As many calls at one instant as there are tokens on hand are all admitted and use them up. */
  lemma {:induction false} BurstDrains(l: Limit, b: Option<Bucket>, c: Call, n: nat, rest: seq<Call>)
    requires 0 < n <= OnHand(l, b, c.now) <= l.capacity
    ensures Answers(l, b, Repeat(c, n) + rest)
            == Repeat(true, n) + Answers(l, Some(Bucket(OnHand(l, b, c.now) - n, c.now)), rest)
    decreases n
  {
    var b' := After(l, b, c.now);
    RepeatUnfolds(c, n, rest);
    NothingRefilledAtOnce(l, b'.tokens, c.now);
    assert Repeat(true, n) == [true] + Repeat(true, n - 1);
    if n > 1 { BurstDrains(l, Some(b'), c, n - 1, rest); } else { assert Repeat(c, 0) + rest == rest; }
  }

  lemma {:induction false} ExpiringBurstDrains(l: Limit, cell: Option<Cell>, c: Call, n: nat, rest: seq<Call>)
    requires 0 < n <= OnHand(l, Visible(cell, c.redisNow), c.now) <= l.capacity
    ensures var left := OnHand(l, Visible(cell, c.redisNow), c.now) - n;
            ExpiringAnswers(l, cell, Repeat(c, n) + rest)
            == Repeat(true, n) + ExpiringAnswers(l, Some(Cell(Bucket(left, c.now), c.redisNow + Lifetime(l))), rest)
    decreases n
  {
    var cell' := Store(l, cell, c);
    RepeatUnfolds(c, n, rest);
    LifetimeIsPositive(l);
    NothingRefilledAtOnce(l, cell'.bucket.tokens, c.now);
    assert Repeat(true, n) == [true] + Repeat(true, n - 1);
    if n > 1 { ExpiringBurstDrains(l, Some(cell'), c, n - 1, rest); } else { assert Repeat(c, 0) + rest == rest; }
  }

  lemma {:induction false} CountOfRepeat(n: nat)
    ensures Count(Repeat(true, n)) == n
  {
    if n > 0 {
      assert Repeat(true, n)[1..] == Repeat(true, n - 1);
      CountOfRepeat(n - 1);
    }
  }

  lemma {:induction false} BelowQuotient(x: real, r: real, d: real)
    requires x > 0.0 && r > 0.0 && d < x / r
    ensures x / r > 0.0 && d * r < x
  {
    var q := x / r;
    assert q * r == x;
    assert (q - d) * r > 0.0;
  }

  /** The longest whole number of seconds that does not refill a bucket. */
  function AlmostRefilled(l: Limit): (d: int)
    ensures l.capacity >= 1 ==> d >= 0 && Refilled(l, 0, d) < l.capacity
  {
    var d := Ceil(l.capacity as real / l.rate) - 1;
    assert l.capacity >= 1 ==> d >= 0 && Gain(l, d) < l.capacity as real by {
      if l.capacity >= 1 { BelowQuotient(l.capacity as real, l.rate, d as real); }
    }
    d
  }

  /** Over every idle period the Redis clock gains at most eleven seconds on the caller's. */
  ghost predicate PacedToEleven(calls: seq<Call>) {
    forall i :: 0 <= i < |calls| - 1 ==>
      calls[i + 1].redisNow - calls[i].redisNow <= (calls[i + 1].now - calls[i].now) as real + 11.0
  }

  /** A full burst, and another one just before the bucket is full again, with the key already gone. */
  function TwoBursts(l: Limit): seq<Call> {
    var d := AlmostRefilled(l);
    Repeat(Call(0, 0.0), l.capacity) + Repeat(Call(d, d as real + 11.0), l.capacity)
  }

  /** Of the second burst the bucket with EXPIRE admits every call, the kept one does not. */
  lemma {:induction false} SecondBurstDiffers(l: Limit, gone: Cell, second: Call)
    requires l.capacity >= 1 && gone.expiresAt <= second.redisNow && second.now == AlmostRefilled(l)
    ensures var burst := Repeat(second, l.capacity);
            ExpiringAnswers(l, Some(gone), burst) != Answers(l, Some(Bucket(0, 0)), burst)
  {
    var n := l.capacity;
    var burst := Repeat(second, n);
    ExpiringBurstDrains(l, Some(gone), second, n, []);
    assert burst + [] == burst;
    assert ExpiringAnswers(l, Some(gone), burst) == Repeat(true, n);
    AdmittedFrom(l, Bucket(0, 0), burst);
    CountOfRepeat(n);
  }

  lemma {:induction false} TwoBurstsDiffer(l: Limit)
    requires l.capacity >= 1
    ensures ExpiringAnswers(l, None, TwoBursts(l)) != Answers(l, None, TwoBursts(l))
  {
    var n, d := l.capacity, AlmostRefilled(l);
    var first, second := Call(0, 0.0), Call(d, d as real + 11.0);
    var burst, gone := Repeat(second, n), Cell(Bucket(0, 0), 0.0 + Lifetime(l));
    BurstDrains(l, None, first, n, burst);
    ExpiringBurstDrains(l, None, first, n, burst);
    SecondBurstDiffers(l, gone, second);
    assert ExpiringAnswers(l, None, TwoBursts(l))[n..] == ExpiringAnswers(l, Some(gone), burst);
    assert Answers(l, None, TwoBursts(l))[n..] == Answers(l, Some(Bucket(0, 0)), burst);
  }

  /** Without capacity there is never a token. */
  lemma {:induction false} NoCapacityNoTokens(l: Limit, b: Option<Bucket>, cell: Option<Cell>, calls: seq<Call>)
    requires l.capacity == 0
    ensures Answers(l, b, calls) == ExpiringAnswers(l, cell, calls) == Repeat(false, |calls|)
    decreases |calls|
  {
    if calls != [] {
      NoCapacityNoTokens(l, Some(After(l, b, calls[0].now)), Some(Store(l, cell, calls[0])), calls[1..]);
      assert Repeat(false, |calls|) == [false] + Repeat(false, |calls| - 1);
    }
  }

  /** Eleven seconds are exact for every limit: allowing that much of a gain, expiry is invisible only
      to a bucket that never holds a token. */
  lemma {:induction false} ElevenSecondsShow(l: Limit)
    ensures (forall calls :: NonDecreasing(calls) && PacedToEleven(calls) ==>
              ExpiringAnswers(l, None, calls) == Answers(l, None, calls))
            <==> l.capacity == 0
  {
    if l.capacity == 0 {
      forall calls ensures ExpiringAnswers(l, None, calls) == Answers(l, None, calls) {
        NoCapacityNoTokens(l, None, None, calls);
      }
    } else {
      TwoBurstsDiffer(l);
      assert NonDecreasing(TwoBursts(l)) && PacedToEleven(TwoBursts(l));
    }
  }

  lemma {:induction false} AdmittedInRun(l: Limit, b: Option<Bucket>, calls: seq<Call>)
    requires calls != [] && NonDecreasing(calls)
    requires b.Some? ==> InRange(l, b.value) && b.value.lastRefill <= calls[0].now
    ensures Count(Answers(l, b, calls)) <= l.capacity + Refilled(l, calls[0].now, calls[|calls| - 1].now)
  {
    var b' := After(l, b, calls[0].now);
    AfterInRange(l, b, calls[0].now);
    assert Answers(l, b, calls)[1..] == Answers(l, Some(b'), calls[1..]);
    RefilledBounds(l, calls[0].now, calls[|calls| - 1].now);
    if calls[1..] != [] { AdmittedFrom(l, b', calls[1..]); }
  }

  lemma {:induction false} AnswersOfPrefix(l: Limit, b: Option<Bucket>, calls: seq<Call>, n: nat)
    requires n <= |calls|
    ensures Answers(l, b, calls)[..n] == Answers(l, b, calls[..n])
    decreases n
  {
    if n > 0 {
      AnswersOfPrefix(l, Some(After(l, b, calls[0].now)), calls[1..], n - 1);
      assert calls[..n][1..] == calls[1..][..n - 1];
    }
  }

  lemma {:induction false} SliceOfTail(s: seq<bool>, i: nat, j: nat)
    requires 0 < i <= j <= |s|
    ensures s[i..j] == s[1..][i - 1..j - 1]
  {
    assert forall k :: 0 <= k < j - i ==> s[i..j][k] == s[1..][i - 1..j - 1][k];
  }

  lemma {:induction false} PrefixAdmits(l: Limit, b: Option<Bucket>, calls: seq<Call>, j: nat)
    requires j < |calls| && NonDecreasing(calls)
    requires b.Some? ==> InRange(l, b.value) && b.value.lastRefill <= calls[0].now
    ensures Count(Answers(l, b, calls)[..j + 1]) <= l.capacity + Refilled(l, calls[0].now, calls[j].now)
  {
    AnswersOfPrefix(l, b, calls, j + 1);
    AdmittedInRun(l, b, calls[..j + 1]);
  }

  lemma {:induction false} StretchFrom(l: Limit, b: Option<Bucket>, calls: seq<Call>, i: nat, j: nat)
    requires i <= j < |calls| && NonDecreasing(calls)
    requires b.Some? ==> InRange(l, b.value) && b.value.lastRefill <= calls[0].now
    ensures Count(Answers(l, b, calls)[i..j + 1]) <= l.capacity + Refilled(l, calls[i].now, calls[j].now)
    decreases i
  {
    if i == 0 {
      PrefixAdmits(l, b, calls, j);
    } else {
      var b' := After(l, b, calls[0].now);
      AfterInRange(l, b, calls[0].now);
      StretchFrom(l, Some(b'), calls[1..], i - 1, j - 1);
      assert Answers(l, b, calls)[1..] == Answers(l, Some(b'), calls[1..]);
      SliceOfTail(Answers(l, b, calls), i, j + 1);
    }
  }

  /** In any stretch of a run, from call i to call j, at most capacity + floor(rate * elapsed)
      requests are admitted. */
  lemma {:induction false} AdmittedInStretch(l: Limit, calls: seq<Call>, i: nat, j: nat)
    requires i <= j < |calls| && NonDecreasing(calls) && Paced(calls)
    ensures Count(ExpiringAnswers(l, None, calls)[i..j + 1])
            <= l.capacity + Refilled(l, calls[i].now, calls[j].now)
  {
    ExpiryIsInvisible(l, calls);
    StretchFrom(l, None, calls, i, j);
  }

  /** What a span refills, whole tokens of the time passed times the rate. */
  lemma {:induction false} RefilledIsFloor(l: Limit, from: int, to: int, elapsed: real, tokens: int)
    requires elapsed == (to - from) as real && tokens == (elapsed * l.rate).Floor
    ensures Refilled(l, from, to) == tokens
  {
  }

  /** The bound with the allowance spelled out: capacity + floor(elapsed * rate). */
  lemma {:induction false} AdmittedWithinAllowance(l: Limit, calls: seq<Call>, i: nat, j: nat,
                                                   elapsed: real, allowance: int)
    requires i <= j < |calls| && NonDecreasing(calls) && Paced(calls)
    requires elapsed == (calls[j].now - calls[i].now) as real && allowance == (elapsed * l.rate).Floor
    ensures Count(ExpiringAnswers(l, None, calls)[i..j + 1]) <= l.capacity + allowance
  {
    RefilledIsFloor(l, calls[i].now, calls[j].now, elapsed, allowance);
    AdmittedInStretch(l, calls, i, j);
  }

  // ---------- Floored against exact ----------

  function ExactAfter(l: Limit, level: real, seconds: int, admitted: bool): real {
    var refilled := level + Gain(l, seconds);
    (if refilled <= l.capacity as real then refilled else l.capacity as real) - (if admitted then 1.0 else 0.0)
  }

  /** Level of the bucket that refills continuously, charged for the same admissions. */
  function Exact(l: Limit, level: real, last: int, calls: seq<Call>, admitted: seq<bool>): real
    requires |admitted| == |calls|
    decreases |calls|
  {
    if calls == [] then level
    else
      Exact(l, ExactAfter(l, level, calls[0].now - last, admitted[0]), calls[0].now, calls[1..], admitted[1..])
  }

  lemma {:induction false} OneCallTrails(l: Limit, b: Bucket, level: real, now: int, n: nat)
    requires b.tokens as real <= level < (b.tokens + n) as real
    ensures var t, e := After(l, Some(b), now).tokens,
                        ExactAfter(l, level, now - b.lastRefill, Admits(l, Some(b), now));
            t as real <= e < (t + n + 1) as real
  {
  }

  lemma {:induction false} FlooredTrailsFrom(l: Limit, b: Bucket, level: real, calls: seq<Call>, n: nat)
    requires InRange(l, b) && NonDecreasing(calls) && (calls != [] ==> b.lastRefill <= calls[0].now)
    requires b.tokens as real <= level < (b.tokens + n) as real
    ensures var f := Final(l, Some(b), calls).value.tokens;
            var e := Exact(l, level, b.lastRefill, calls, Answers(l, Some(b), calls));
            f as real <= e < (f + n + |calls|) as real
    decreases |calls|
  {
    if calls != [] {
      var now, b' := calls[0].now, After(l, Some(b), calls[0].now);
      AfterInRange(l, Some(b), now);
      var level' := ExactAfter(l, level, now - b.lastRefill, Admits(l, Some(b), now));
      OneCallTrails(l, b, level, now, n);
      FlooredTrailsFrom(l, b', level', calls[1..], n + 1);
      assert Answers(l, Some(b), calls)[1..] == Answers(l, Some(b'), calls[1..]);
    }
  }

  lemma {:induction false} FirstCallIsExact(l: Limit, calls: seq<Call>)
    requires calls != []
    ensures var now, b := calls[0].now, After(l, None, calls[0].now);
            Exact(l, l.capacity as real, now, calls, Answers(l, None, calls))
            == Exact(l, b.tokens as real, now, calls[1..], Answers(l, Some(b), calls[1..]))
  {
    var now, b := calls[0].now, After(l, None, calls[0].now);
    assert Gain(l, 0) == 0.0;
    assert ExactAfter(l, l.capacity as real, 0, Admits(l, None, now)) == b.tokens as real;
    assert Answers(l, None, calls)[1..] == Answers(l, Some(b), calls[1..]);
  }

  lemma {:induction false} FinalInRange(l: Limit, b: Bucket, calls: seq<Call>)
    requires InRange(l, b) && NonDecreasing(calls) && (calls != [] ==> b.lastRefill <= calls[0].now)
    ensures Final(l, Some(b), calls).Some? && InRange(l, Final(l, Some(b), calls).value)
    decreases |calls|
  {
    if calls != [] {
      AfterInRange(l, Some(b), calls[0].now);
      FinalInRange(l, After(l, Some(b), calls[0].now), calls[1..]);
    }
  }

  /** After n calls the floored bucket is never above the exact one and trails it by less than n. */
  lemma {:induction false} FlooredTrailsExact(l: Limit, calls: seq<Call>)
    requires calls != [] && NonDecreasing(calls)
    ensures var f := Final(l, None, calls).value.tokens;
            var e := Exact(l, l.capacity as real, calls[0].now, calls, Answers(l, None, calls));
            0 <= f && f as real <= e < (f + |calls|) as real
  {
    var b := After(l, None, calls[0].now);
    AfterInRange(l, None, calls[0].now);
    FirstCallIsExact(l, calls);
    FlooredTrailsFrom(l, b, b.tokens as real, calls[1..], 1);
    FinalInRange(l, b, calls[1..]);
  }

  /** Every gap, the first one counted from the last refill, is shorter than 1/rate. */
  ghost predicate Dense(l: Limit, last: int, calls: seq<Call>) {
    && (calls != [] ==> 0 <= calls[0].now - last && Gain(l, calls[0].now - last) < 1.0)
    && forall i :: 0 <= i < |calls| - 1 ==>
         0 <= calls[i + 1].now - calls[i].now && Gain(l, calls[i + 1].now - calls[i].now) < 1.0
  }

  /** Under dense traffic nothing is ever refilled: exactly the tokens on hand at the start are
      given out, however long the run lasts. */
  lemma {:induction false} DenseTrafficNeverRefills(l: Limit, b: Bucket, calls: seq<Call>)
    requires InRange(l, b) && Dense(l, b.lastRefill, calls)
    ensures Count(Answers(l, Some(b), calls)) == Min(b.tokens, |calls|)
    decreases |calls|
  {
    if calls != [] {
      var now, b' := calls[0].now, After(l, Some(b), calls[0].now);
      RefilledBounds(l, b.lastRefill, now);
      assert Refilled(l, b.lastRefill, now) == 0;
      assert Answers(l, Some(b), calls)[1..] == Answers(l, Some(b'), calls[1..]);
      DenseTrafficNeverRefills(l, b', calls[1..]);
    }
  }

  // ---------- The limiter ----------

  /** One bucket's key in Redis. */
  class RateLimiter {
    const limit: Limit
    var cell: Option<Cell>

    constructor (limit: Limit)
      ensures this.limit == limit && cell == None
    {
      this.limit := limit;
      cell := None;
    }

    method CheckRateLimit(call: Call) returns (allowed: bool, remaining: int)
      modifies this
      ensures cell == Some(Store(limit, old(cell), call))
      ensures allowed == Admits(limit, Visible(old(cell), call.redisNow), call.now)
      ensures remaining == cell.value.bucket.tokens
    {
      var tokens, lastRefill := limit.capacity as int, call.now;
      if cell.Some? && call.redisNow < cell.value.expiresAt {
        tokens, lastRefill := cell.value.bucket.tokens, cell.value.bucket.lastRefill;
      }
      var elapsed := call.now - lastRefill;
      var refilled := (elapsed as real * limit.rate).Floor;
      assert refilled == Refilled(limit, lastRefill, call.now);
      assert elapsed == 0 ==> refilled == 0;
      tokens := if limit.capacity <= tokens + refilled then limit.capacity else tokens + refilled;
      assert tokens == OnHand(limit, Visible(cell, call.redisNow), call.now);
      allowed := tokens >= 1;
      if allowed {
        tokens := tokens - 1;
      }
      assert Bucket(tokens, call.now) == After(limit, Visible(cell, call.redisNow), call.now);
      var expiresAt := call.redisNow + (Ceil(limit.capacity as real / limit.rate) + 10) as real;
      assert expiresAt == call.redisNow + Lifetime(limit);
      cell := Some(Cell(Bucket(tokens, call.now), expiresAt));
      remaining := tokens;
    }
  }
}
