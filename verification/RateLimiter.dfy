// The token bucket in front of the sandboxes (admission_control.py), over real time and tokens.
module RateLimiter {
  datatype Bucket = Bucket(tokens: real, at: real)

  datatype Limits = Limits(rate: real, burst: nat, start: real) {
    ghost predicate Valid() { rate > 0.0 && burst >= 1 }
  }

  function Min(a: real, b: real): real { if a <= b then a else b }
  function Max(a: real, b: real): real { if a >= b then a else b }

  function Refilled(l: Limits, b: Bucket, now: real): real {
    Min(l.burst as real, b.tokens + Max(0.0, now - b.at) * l.rate)
  }

  function Grants(l: Limits, b: Bucket, now: real): bool { Refilled(l, b, now) >= 1.0 }

  function Next(l: Limits, b: Bucket, now: real): Bucket {
    Bucket(Refilled(l, b, now) - if Grants(l, b, now) then 1.0 else 0.0, now)
  }

  class SandboxStartRateLimiter {
    const limits: Limits
    var tokens: real
    var updatedAt: real

    ghost function Model(): Bucket
      reads this
    {
      Bucket(tokens, updatedAt)
    }

    constructor (ratePerSecond: real, burst: nat, now: real)
      requires ratePerSecond > 0.0 && burst >= 1 // anything else is a ValueError
      ensures limits == Limits(ratePerSecond, burst, now) && limits.Valid()
      ensures Model() == Bucket(burst as real, now)
    {
      limits := Limits(ratePerSecond, burst, now);
      tokens, updatedAt := burst as real, now;
    }

    method TryAcquire(now: real) returns (granted: bool)
      modifies this
      ensures granted == Grants(limits, old(Model()), now) && Model() == Next(limits, old(Model()), now)
    {
      var elapsed := Max(0.0, now - updatedAt);
      tokens := Min(limits.burst as real, tokens + elapsed * limits.rate);
      updatedAt := now;
      if tokens < 1.0 { return false; }
      tokens := tokens - 1.0;
      return true;
    }
  }

  // ----- a whole run: request k reads the clock as times[k]

  function After(l: Limits, times: seq<real>, k: nat): Bucket
    requires k <= |times|
  {
    if k == 0 then Bucket(l.burst as real, l.start) else Next(l, After(l, times, k - 1), times[k - 1])
  }

  /** The tokens request k finds. */
  function Available(l: Limits, times: seq<real>, k: nat): real
    requires k < |times|
  {
    Refilled(l, After(l, times, k), times[k])
  }

  predicate Admitted(l: Limits, times: seq<real>, k: nat)
    requires k < |times|
  {
    Grants(l, After(l, times, k), times[k])
  }

  /** How many of the requests i, ..., j-1 are admitted. */
  function Count(l: Limits, times: seq<real>, i: nat, j: nat): nat
    requires j <= |times|
  {
    if i >= j then 0 else Count(l, times, i, j - 1) + if Admitted(l, times, j - 1) then 1 else 0
  }

  ghost predicate Monotonic(l: Limits, times: seq<real>) {
    && (times != [] ==> l.start <= times[0])
    && forall i, j :: 0 <= i <= j < |times| ==> times[i] <= times[j]
  }

  // ----- the same run in earned tokens: `e[k]` is the rate times the clock, and all is linear

  function Found(burst: real, e0: real, e: seq<real>, k: nat): real
    requires k < |e|
    decreases k, 0
  {
    if k == 0 then Min(burst, burst + Max(0.0, e[0] - e0))
    else Min(burst, Left(burst, e0, e, k - 1) + Max(0.0, e[k] - e[k - 1]))
  }

  function Left(burst: real, e0: real, e: seq<real>, k: nat): real
    requires k < |e|
    decreases k, 1
  {
    var found := Found(burst, e0, e, k);
    if found >= 1.0 then found - 1.0 else found
  }

  function Granted(burst: real, e0: real, e: seq<real>, i: nat, j: nat): nat
    requires j <= |e|
  {
    if i >= j then 0
    else Granted(burst, e0, e, i, j - 1) + if Found(burst, e0, e, j - 1) >= 1.0 then 1 else 0
  }

  /** The budget of the window that opens at request i, as request j sees it. */
  function Budget(burst: real, e0: real, e: seq<real>, i: nat, j: nat): real
    requires i <= j < |e|
  {
    burst + (e[j] - e[i]) - Granted(burst, e0, e, i, j) as real
  }

  ghost predicate Rising(e0: real, e: seq<real>) {
    && (e != [] ==> e0 <= e[0])
    && forall i, j :: 0 <= i <= j < |e| ==> e[i] <= e[j]
  }

  lemma {:induction false} FoundInRange(burst: real, e0: real, e: seq<real>, k: nat)
    requires burst >= 1.0 && Rising(e0, e) && k < |e|
    ensures 0.0 <= Found(burst, e0, e, k) <= burst
  {
    if k > 0 { FoundInRange(burst, e0, e, k - 1); }
  }

  /** The tokens request j finds are the tightest window budget: none is smaller, and one is equal. */
  lemma {:induction false} FoundIsTightestBudget(burst: real, e0: real, e: seq<real>, j: nat) returns (w: nat)
    requires burst >= 1.0 && Rising(e0, e) && j < |e|
    ensures forall i: nat :: i <= j ==> Found(burst, e0, e, j) <= Budget(burst, e0, e, i, j)
    ensures w <= j && Found(burst, e0, e, j) == Budget(burst, e0, e, w, j)
  {
    w := 0;
    if j > 0 {
      w := FoundIsTightestBudget(burst, e0, e, j - 1);
      forall i: nat | i <= j ensures Found(burst, e0, e, j) <= Budget(burst, e0, e, i, j) {
        assert i < j ==> Found(burst, e0, e, j - 1) <= Budget(burst, e0, e, i, j - 1);
      }
      if Found(burst, e0, e, j) == burst { w := j; }
    }
  }

  // ----- back to clock readings

  function Earned(l: Limits, times: seq<real>): (e: seq<real>)
    ensures |e| == |times| && forall k :: 0 <= k < |e| ==> e[k] == l.rate * times[k]
  {
    seq(|times|, k requires 0 <= k < |times| => l.rate * times[k])
  }

  lemma Product(a: real, b: real, rate: real)
    requires rate > 0.0
    ensures Max(0.0, b - a) * rate == Max(0.0, rate * b - rate * a)
    ensures a <= b ==> rate * a <= rate * b
    ensures rate * (b - a) == rate * b - rate * a
  {
    assert (b - a) * rate == rate * b - rate * a;
    if a <= b {
      assert (b - a) * rate >= 0.0;
    } else {
      assert (a - b) * rate >= 0.0;
    }
  }

  lemma RefilledLinear(l: Limits, b: Bucket, now: real, before: real, after: real)
    requires l.Valid() && before == l.rate * b.at && after == l.rate * now
    ensures Refilled(l, b, now) == Min(l.burst as real, b.tokens + Max(0.0, after - before))
  {
    Product(b.at, now, l.rate);
  }

  lemma AfterStep(l: Limits, times: seq<real>, k: nat)
    requires 0 < k < |times|
    ensures After(l, times, k).at == times[k - 1]
    ensures var a := Available(l, times, k - 1); After(l, times, k).tokens == if a >= 1.0 then a - 1.0 else a
  {
  }

  lemma SameFirst(l: Limits, times: seq<real>)
    requires l.Valid() && times != []
    ensures Available(l, times, 0) == Found(l.burst as real, l.rate * l.start, Earned(l, times), 0)
  {
    RefilledLinear(l, Bucket(l.burst as real, l.start), times[0], l.rate * l.start, Earned(l, times)[0]);
  }

  lemma SameStep(l: Limits, times: seq<real>, k: nat, e0: real, e: seq<real>)
    requires 0 < k < |times| && |e| == |times|
    requires Available(l, times, k - 1) == Found(l.burst as real, e0, e, k - 1)
    requires Refilled(l, After(l, times, k), times[k])
          == Min(l.burst as real, After(l, times, k).tokens + Max(0.0, e[k] - e[k - 1]))
    ensures Available(l, times, k) == Found(l.burst as real, e0, e, k)
  {
    AfterStep(l, times, k);
    assert After(l, times, k).tokens == Left(l.burst as real, e0, e, k - 1);
  }

  lemma RefilledAt(l: Limits, times: seq<real>, k: nat, e: seq<real>)
    requires l.Valid() && 0 < k < |times| && e == Earned(l, times)
    ensures Refilled(l, After(l, times, k), times[k])
         == Min(l.burst as real, After(l, times, k).tokens + Max(0.0, e[k] - e[k - 1]))
  {
    AfterStep(l, times, k);
    RefilledLinear(l, After(l, times, k), times[k], e[k - 1], e[k]);
  }

  lemma {:induction false} SameRun(l: Limits, times: seq<real>, k: nat)
    requires l.Valid() && k < |times|
    ensures Available(l, times, k) == Found(l.burst as real, l.rate * l.start, Earned(l, times), k)
  {
    if k == 0 {
      SameFirst(l, times);
    } else {
      SameRun(l, times, k - 1);
      RefilledAt(l, times, k, Earned(l, times));
      SameStep(l, times, k, l.rate * l.start, Earned(l, times));
    }
  }

  lemma {:induction false} SameCount(l: Limits, times: seq<real>, i: nat, j: nat)
    requires l.Valid() && j <= |times|
    ensures Count(l, times, i, j) == Granted(l.burst as real, l.rate * l.start, Earned(l, times), i, j)
  {
    if i < j {
      SameCount(l, times, i, j - 1);
      SameRun(l, times, j - 1);
    }
  }

  lemma EarnedRises(l: Limits, times: seq<real>)
    requires l.Valid() && Monotonic(l, times)
    ensures Rising(l.rate * l.start, Earned(l, times))
  {
    if times != [] { Product(l.start, times[0], l.rate); }
    forall i, j | 0 <= i <= j < |times| ensures Earned(l, times)[i] <= Earned(l, times)[j] {
      Product(times[i], times[j], l.rate);
    }
  }

  /** The bound of the window from request i to request j on the number of starts in it. */
  function Allowance(l: Limits, times: seq<real>, i: nat, j: nat): real
    requires i < |times| && j < |times|
  {
    l.burst as real + l.rate * (times[j] - times[i])
  }

  lemma AllowanceIsEarned(l: Limits, times: seq<real>, i: nat, j: nat)
    requires l.Valid() && i <= j < |times|
    ensures Allowance(l, times, i, j) == l.burst as real + (Earned(l, times)[j] - Earned(l, times)[i])
  {
    Product(times[i], times[j], l.rate);
  }

  /** In earned tokens, linear: what is granted in a window stays within the burst and what the window earns. */
  lemma GrantedBound(burst: real, e0: real, e: seq<real>, i: nat, j: nat)
    requires burst >= 1.0 && Rising(e0, e) && i <= j < |e|
    ensures Granted(burst, e0, e, i, j + 1) as real <= burst + (e[j] - e[i])
  {
    var _ := FoundIsTightestBudget(burst, e0, e, j);
    FoundInRange(burst, e0, e, j);
    assert Found(burst, e0, e, j) <= Budget(burst, e0, e, i, j);
  }

  /** One more grant fits the window from request i to request j. */
  predicate Fits(burst: real, e0: real, e: seq<real>, i: nat, j: nat)
    requires i <= j < |e|
  {
    (Granted(burst, e0, e, i, j) + 1) as real <= burst + (e[j] - e[i])
  }

  /** In earned tokens, linear: a request finds a whole token exactly if every window has room for it. */
  lemma FoundIffFits(burst: real, e0: real, e: seq<real>, j: nat)
    requires burst >= 1.0 && Rising(e0, e) && j < |e|
    ensures Found(burst, e0, e, j) >= 1.0 <==> forall i: nat :: i <= j ==> Fits(burst, e0, e, i, j)
  {
    var w := FoundIsTightestBudget(burst, e0, e, j);
    forall i: nat | i <= j ensures Found(burst, e0, e, j) >= 1.0 ==> Fits(burst, e0, e, i, j) {
      assert Found(burst, e0, e, j) <= Budget(burst, e0, e, i, j);
    }
    assert Found(burst, e0, e, j) < 1.0 ==> !Fits(burst, e0, e, w, j);
  }

  /** A whole request more fits the window from request i to request j, in clock readings. */
  predicate Allows(l: Limits, times: seq<real>, i: nat, j: nat)
    requires i <= j < |times|
  {
    (Count(l, times, i, j) + 1) as real <= Allowance(l, times, i, j)
  }

  lemma AllowsIsFits(l: Limits, times: seq<real>, i: nat, j: nat)
    requires l.Valid() && i <= j < |times|
    ensures Allows(l, times, i, j) <==> Fits(l.burst as real, l.rate * l.start, Earned(l, times), i, j)
  {
    SameCount(l, times, i, j);
    AllowanceIsEarned(l, times, i, j);
  }

  /** Starts admitted from request i to request j never exceed the burst plus the rate times the window. */
  lemma WindowBound(l: Limits, times: seq<real>, i: nat, j: nat)
    requires l.Valid() && Monotonic(l, times) && i <= j < |times|
    ensures Count(l, times, i, j + 1) as real <= Allowance(l, times, i, j)
  {
    EarnedRises(l, times);
    GrantedBound(l.burst as real, l.rate * l.start, Earned(l, times), i, j);
    SameCount(l, times, i, j + 1);
    AllowanceIsEarned(l, times, i, j);
  }

  /** A request is admitted exactly when one more start keeps every earlier window within its bound. */
  lemma AdmitsIffEveryWindowAllows(l: Limits, times: seq<real>, j: nat)
    requires l.Valid() && Monotonic(l, times) && j < |times|
    ensures Admitted(l, times, j) <==> forall i: nat :: i <= j ==> Allows(l, times, i, j)
  {
    EarnedRises(l, times);
    SameRun(l, times, j);
    forall i: nat | i <= j
      ensures Allows(l, times, i, j) <==> Fits(l.burst as real, l.rate * l.start, Earned(l, times), i, j)
    {
      AllowsIsFits(l, times, i, j);
    }
    AdmittedIffAllowed(l, times, l.rate * l.start, Earned(l, times), j);
  }

  lemma AdmittedIffAllowed(l: Limits, times: seq<real>, e0: real, e: seq<real>, j: nat)
    requires l.Valid() && j < |times| == |e| && Rising(e0, e)
    requires Available(l, times, j) == Found(l.burst as real, e0, e, j)
    requires forall i: nat :: i <= j ==> (Allows(l, times, i, j) <==> Fits(l.burst as real, e0, e, i, j))
    ensures Admitted(l, times, j) <==> forall i: nat :: i <= j ==> Allows(l, times, i, j)
  {
    var burst := l.burst as real;
    FoundIffFits(burst, e0, e, j);
    if forall i: nat :: i <= j ==> Allows(l, times, i, j) {
      forall i: nat | i <= j ensures Fits(burst, e0, e, i, j) {
        assert Allows(l, times, i, j);
      }
    }
  }

  // ----- any clock

  /** The clock at request k with every step back ignored: the start and all movement forward since. */
  function Forward(l: Limits, times: seq<real>, k: nat): real
    requires k < |times|
  {
    if k == 0 then l.start + Max(0.0, times[0] - l.start)
    else Forward(l, times, k - 1) + Max(0.0, times[k] - times[k - 1])
  }

  function Steady(l: Limits, times: seq<real>): (f: seq<real>)
    ensures |f| == |times| && forall k :: 0 <= k < |f| ==> f[k] == Forward(l, times, k)
  {
    seq(|times|, k requires 0 <= k < |times| => Forward(l, times, k))
  }

  lemma {:induction false} ForwardRises(l: Limits, times: seq<real>, i: nat, j: nat)
    requires i <= j < |times|
    ensures l.start <= Forward(l, times, i) <= Forward(l, times, j)
    decreases i + j
  {
    if i < j {
      ForwardRises(l, times, i, j - 1);
    } else if i > 0 {
      ForwardRises(l, times, i - 1, i - 1);
    }
  }

  lemma SteadyIsMonotonic(l: Limits, times: seq<real>)
    ensures Monotonic(l, Steady(l, times))
  {
    forall i, j | 0 <= i <= j < |times| ensures l.start <= Steady(l, times)[i] <= Steady(l, times)[j] {
      ForwardRises(l, times, i, j);
    }
  }

  /** A monotonic clock is its own steady form. */
  lemma SteadyOfMonotonic(l: Limits, times: seq<real>)
    ensures Monotonic(l, times) ==> Steady(l, times) == times
  {
    if Monotonic(l, times) {
      forall k: nat | k < |times| ensures Forward(l, times, k) == times[k] { ForwardIfMonotonic(l, times, k); }
    }
  }

  lemma {:induction false} ForwardIfMonotonic(l: Limits, times: seq<real>, k: nat)
    requires Monotonic(l, times) && k < |times|
    ensures Forward(l, times, k) == times[k]
  {
    if k > 0 { ForwardIfMonotonic(l, times, k - 1); }
  }

  /** The limiter sees only the movement forward. */
  lemma {:induction false} SameTokens(l: Limits, times: seq<real>, k: nat)
    requires k <= |times|
    ensures After(l, times, k).tokens == After(l, Steady(l, times), k).tokens
    ensures k < |times| ==> Available(l, times, k) == Available(l, Steady(l, times), k)
  {
    var f := Steady(l, times);
    if k > 0 {
      SameTokens(l, times, k - 1);
      SameLeft(l, times, f, k);
    }
    if k < |times| {
      LastRead(l, times, k);
      LastRead(l, f, k);
      StepForward(l, times, k);
      SameRefill(l, After(l, times, k), Before(l, times, k), times[k], After(l, f, k), Before(l, f, k), f[k]);
    }
  }

  lemma SameRefill(l: Limits, b: Bucket, last: real, now: real, b': Bucket, last': real, now': real)
    requires b.tokens == b'.tokens && b.at == last && b'.at == last'
    requires Max(0.0, now - last) == Max(0.0, now' - last')
    ensures Refilled(l, b, now) == Refilled(l, b', now')
  {
  }

  lemma SameLeft(l: Limits, times: seq<real>, f: seq<real>, k: nat)
    requires 0 < k <= |times| == |f| && Available(l, times, k - 1) == Available(l, f, k - 1)
    ensures After(l, times, k).tokens == After(l, f, k).tokens
  {
  }

  function Before(l: Limits, times: seq<real>, k: nat): real
    requires k < |times|
  {
    if k == 0 then l.start else times[k - 1]
  }

  lemma LastRead(l: Limits, times: seq<real>, k: nat)
    requires k < |times|
    ensures After(l, times, k).at == Before(l, times, k)
  {
  }

  lemma StepForward(l: Limits, times: seq<real>, k: nat)
    requires k < |times|
    ensures Max(0.0, times[k] - Before(l, times, k)) == Max(0.0, Steady(l, times)[k] - Before(l, Steady(l, times), k))
  {
  }

  lemma {:induction false} SameAdmissions(l: Limits, times: seq<real>, i: nat, j: nat)
    requires j <= |times|
    ensures Count(l, times, i, j) == Count(l, Steady(l, times), i, j)
  {
    if i < j {
      SameAdmissions(l, times, i, j - 1);
      SameTokens(l, times, j - 1);
    }
  }

  /** For any clock: starts in a window never exceed the burst plus the rate times the forward movement in it. */
  lemma AnyClockWindowBound(l: Limits, times: seq<real>, i: nat, j: nat)
    requires l.Valid() && i <= j < |times|
    ensures Count(l, times, i, j + 1) as real <= Allowance(l, Steady(l, times), i, j)
    ensures Monotonic(l, times) ==> Steady(l, times) == times
  {
    SteadyIsMonotonic(l, times);
    WindowBound(l, Steady(l, times), i, j);
    SameAdmissions(l, times, i, j + 1);
    SteadyOfMonotonic(l, times);
  }

  /** For any clock: a request is admitted exactly when one more start keeps every earlier window within that bound. */
  lemma AnyClockAdmitsIff(l: Limits, times: seq<real>, j: nat)
    requires l.Valid() && j < |times|
    ensures Admitted(l, times, j) <==>
            forall i: nat :: i <= j ==> (Count(l, times, i, j) + 1) as real <= Allowance(l, Steady(l, times), i, j)
  {
    var f := Steady(l, times);
    SteadyIsMonotonic(l, times);
    AdmitsIffEveryWindowAllows(l, f, j);
    SameTokens(l, times, j);
    forall i: nat | i <= j
      ensures Allows(l, f, i, j) <==> (Count(l, times, i, j) + 1) as real <= Allowance(l, f, i, j)
    {
      SameAdmissions(l, times, i, j);
    }
  }

  // ----- what elapsed time says of a clock that is set back

  lemma {:induction false} Drains(l: Limits, times: seq<real>, k: nat)
    requires l.Valid() && k <= l.burst <= |times| && forall i :: 0 <= i < k ==> times[i] == l.start
    ensures After(l, times, k) == Bucket((l.burst - k) as real, l.start) && Count(l, times, 0, k) == k
  {
    if k > 0 { Drains(l, times, k - 1); }
  }

  /**
   * For all limits one step back of the clock lets more starts through at one instant than the bound
   * allows: the burst, a reading far enough back to earn a token, and the same instant again.
   */
  lemma BackwardClockBreaksBound(l: Limits) returns (times: seq<real>)
    requires l.Valid()
    ensures |times| == l.burst + 2 && times[l.burst] < l.start
    ensures forall i :: 0 <= i < |times| && i != l.burst ==> times[i] == l.start
    ensures Count(l, times, 0, l.burst + 2) as real > Allowance(l, times, 0, l.burst + 1)
  {
    var b, back := l.burst, l.start - 1.0 / l.rate;
    times := seq(b, _ => l.start) + [back, l.start];
    Drains(l, times, b);
    assert After(l, times, b + 1) == Bucket(0.0, back);
    assert (l.start - back) * l.rate == 1.0;
    assert Admitted(l, times, b + 1);
    assert Count(l, times, 0, b + 2) == Count(l, times, 0, b + 1) + 1;
    assert Count(l, times, 0, b + 1) >= Count(l, times, 0, b) == b;
    NoTime(l.rate, times[b + 1] - times[0]);
    assert Allowance(l, times, 0, b + 1) == b as real;
  }

  lemma NoTime(rate: real, elapsed: real)
    requires elapsed == 0.0
    ensures rate * elapsed == 0.0
  {
    assert rate * 0.0 == 0.0;
  }
}
