/** The outbound retry loop: section 9.2.2 (idempotent methods) and section 10.2.3 (Retry-After) of
    RFC 9110, and section 4 (429 Too Many Requests) of RFC 6585. */
module HttpRetry {
  import opened Options
  import opened StoreLog

  /** How one attempt ended: a timeout or transport error, or a response with its parsed `Retry-After`. */
  datatype Attempt = TransportError | Response(code: int, retryAfter: Option<real>)

  datatype Outcome = Raised | StatusError(code: int) | Returned(code: int)

  const IDEMPOTENT_METHODS: set<string> := {"GET", "HEAD", "OPTIONS", "PUT", "DELETE"}
  const RETRY_STATUS: set<int> := {429, 500, 502, 503, 504}

  /** The attempt may be repeated, as far as its outcome goes. */
  predicate Retryable(idempotent: bool, a: Attempt) {
    match a
    case TransportError => idempotent
    case Response(code, _) => code == 429 || (idempotent && code in RETRY_STATUS)
  }

  /** `raise_for_status` lets only 2xx through. */
  function Final(a: Attempt): Outcome {
    match a
    case TransportError => Raised
    case Response(code, _) => if 200 <= code < 300 then Returned(code) else StatusError(code)
  }

  function MaxReal(a: real, b: real): real { if a >= b then a else b }
  function MinReal(a: real, b: real): real { if a <= b then a else b }

  function Pow2(k: nat): (p: real)
    ensures p >= 1.0
  {
    if k == 0 then 1.0 else 2.0 * Pow2(k - 1)
  }

  /** Full-jitter exponential backoff. */
  function BackoffSeconds(attempt: nat, base: real, cap: real, rand: real): (d: real)
    requires 0.0 <= base && 0.0 <= cap && 0.0 <= rand < 1.0
    ensures 0.0 <= d <= cap
  {
    Scale(base, 0.0, Pow2(attempt));
    var top := MinReal(cap, base * Pow2(attempt));
    Jitter(rand, top, cap);
    rand * top
  }

  lemma Jitter(rand: real, top: real, cap: real)
    requires 0.0 <= rand < 1.0 && 0.0 <= top <= cap
    ensures 0.0 <= rand * top <= cap
  {
    Scale(top, rand, 1.0);
  }

  lemma Scale(x: real, a: real, b: real)
    requires 0.0 <= x && a <= b
    ensures x * a <= x * b && a * x <= b * x
  {
    if a < b && 0.0 < x {
      assert x * (b - a) > 0.0;
    }
  }

  /** The numeric form of `Retry-After`, clamped at zero. */
  function RetryAfterSeconds(header: Option<real>): Option<real> {
    if header.None? then None else Some(MaxReal(0.0, header.value))
  }

  function Delay(attempt: nat, a: Attempt, base: real, cap: real, rand: real): (d: real)
    requires 0.0 <= base && 0.0 <= cap && 0.0 <= rand < 1.0
    ensures 0.0 <= d <= cap
  {
    if a.Response? && a.retryAfter.Some? then MinReal(RetryAfterSeconds(a.retryAfter).value, cap)
    else MinReal(BackoffSeconds(attempt, base, cap, rand), cap)
  }

  /** The wait in full: what the server asks for, from zero up to the cap, or else the jittered share of the
      base doubled once for each attempt before (`top`), up to the cap. */
  lemma DelayExactly(attempt: nat, a: Attempt, base: real, cap: real, rand: real, top: real)
    requires 0.0 <= base && 0.0 <= cap && 0.0 <= rand < 1.0 && top == base * Pow2(attempt)
    ensures Delay(attempt, a, base, cap, rand) ==
            if a.Response? && a.retryAfter.Some? then
              (if a.retryAfter.value <= 0.0 then 0.0 else if a.retryAfter.value <= cap then a.retryAfter.value else cap)
            else if top <= cap then rand * top else rand * cap
  {
    BackoffExactly(attempt, base, cap, rand, top);
    var backoff := BackoffSeconds(attempt, base, cap, rand);
    assert MinReal(backoff, cap) == backoff;
  }

  lemma BackoffExactly(attempt: nat, base: real, cap: real, rand: real, top: real)
    requires 0.0 <= base && 0.0 <= cap && 0.0 <= rand < 1.0 && top == base * Pow2(attempt)
    ensures BackoffSeconds(attempt, base, cap, rand) == if top <= cap then rand * top else rand * cap
  {
  }

  lemma {:induction false} Doubles(k: nat, m: nat)
    ensures Pow2(0) == 1.0 && Pow2(1) == 2.0 && Pow2(k + m) == Pow2(k) * Pow2(m)
  {
    assert Pow2(1) == 2.0 * Pow2(0);
    if k > 0 {
      Doubles(k - 1, m);
      assert Pow2(k + m) == 2.0 * Pow2(k - 1 + m);
    }
  }

  /** `upper()` of an ASCII method name. */
  function Upper(verb: string): (u: string)
    ensures |u| == |verb| && forall i :: 0 <= i < |u| ==> !('a' <= u[i] <= 'z')
  {
    seq(|verb|, i requires 0 <= i < |verb| => if 'a' <= verb[i] <= 'z' then (verb[i] as int - 32) as char else verb[i])
  }

  /** Whether the call may be repeated: as the caller says, else by its method, whatever its letter case. */
  predicate Idempotent(verb: string, arg: Option<bool>) {
    OrElse(arg, Upper(verb) in IDEMPOTENT_METHODS)
  }

  /** The two spellings differ at most in the case of ASCII letters, and `name` has no small ones. */
  predicate Spells(verb: string, name: string) {
    && |verb| == |name|
    && forall i :: 0 <= i < |verb| ==>
         && !('a' <= name[i] <= 'z')
         && (verb[i] == name[i] || ('a' <= verb[i] <= 'z' && verb[i] as int == name[i] as int + 32))
  }

  lemma UpperSpells(verb: string, name: string)
    ensures Spells(verb, name) <==> name == Upper(verb)
  {
  }

  /** A caller's word counts; without one, exactly these five methods may be repeated, in any letter case. */
  lemma IdempotentExactly(verb: string, arg: Option<bool>)
    ensures Idempotent(verb, arg) <==>
              if arg.Some? then arg.value
              else || Spells(verb, "GET") || Spells(verb, "HEAD") || Spells(verb, "OPTIONS") || Spells(verb, "PUT")
                   || Spells(verb, "DELETE")
  {
    forall name: string
      ensures Spells(verb, name) <==> name == Upper(verb)
    {
      UpperSpells(verb, name);
    }
  }

  /** A 429 is always worth a repetition; a lost connection and four server errors only if repeating is
      harmless; nothing else is. */
  lemma RetryableExactly(idempotent: bool, a: Attempt)
    ensures Retryable(idempotent, a) <==>
              || (a.Response? && a.code == 429)
              || (idempotent
                  && (a.TransportError? || a.code == 500 || a.code == 502 || a.code == 503 || a.code == 504))
  {
  }

  function Attempts(maxAttempts: int): nat {
    if maxAttempts < 1 then 1 else maxAttempts
  }

  /** Sends until an attempt is final or the attempts run out, sleeping in between. `world` answers the
      attempts, `rand` supplies the jitter. */
  method Request(verb: string, idempotentArg: Option<bool>, maxAttempts: int, baseEnv: real, capEnv: real,
                 world: nat -> Attempt, rand: nat -> real)
    returns (outcome: Outcome, sent: nat, sleeps: seq<real>, retries: nat)
    requires forall k :: 0.0 <= rand(k) < 1.0
    ensures 1 <= sent <= (if maxAttempts <= 1 then 1 else maxAttempts)
    ensures var idempotent := Idempotent(verb, idempotentArg);
            && (forall k :: 0 <= k < sent - 1 ==> Retryable(idempotent, world(k)))
            && (sent < maxAttempts ==> !Retryable(idempotent, world(sent - 1)))
    ensures outcome == Final(world(sent - 1))
    ensures match world(sent - 1)
            case TransportError => outcome == Raised
            case Response(code, _) => outcome == if 200 <= code < 300 then Returned(code) else StatusError(code)
    ensures |sleeps| == retries == sent - 1
    ensures forall k :: 0 <= k < |sleeps| ==>
              sleeps[k] == Delay(k, world(k), MaxReal(0.0, baseEnv), MaxReal(0.0, capEnv), rand(k))
  {
    var name := Upper(verb);
    var idempotent := if idempotentArg.Some? then idempotentArg.value else name in IDEMPOTENT_METHODS;
    var attempts := Attempts(maxAttempts);
    var base, cap := MaxReal(0.0, baseEnv), MaxReal(0.0, capEnv);
    sleeps, retries := [], 0;
    var attempt := 0;
    while true
      invariant 0 <= attempt < attempts && |sleeps| == retries == attempt
      invariant forall k :: 0 <= k < attempt ==> Retryable(idempotent, world(k))
      invariant forall k :: 0 <= k < attempt ==> sleeps[k] == Delay(k, world(k), base, cap, rand(k))
      decreases attempts - attempt
    {
      var last := attempt == attempts - 1;
      var delay: real;
      match world(attempt) {
        case TransportError =>
          if last || !idempotent {
            return Raised, attempt + 1, sleeps, retries;
          }
          delay := BackoffSeconds(attempt, base, cap, rand(attempt));
        case Response(code, header) =>
          var retryable := code == 429 || (idempotent && code in RETRY_STATUS);
          if !retryable || last {
            return Final(world(attempt)), attempt + 1, sleeps, retries;
          }
          var retryAfter := RetryAfterSeconds(header);
          delay := MinReal(if retryAfter.Some? then retryAfter.value
                           else BackoffSeconds(attempt, base, cap, rand(attempt)), cap);
      }
      retries := retries + 1;
      sleeps := sleeps + [delay];
      attempt := attempt + 1;
    }
  }

  // --- at most once --------------------------------------------------------------------------

  /** The server may have acted on the attempt; only a 429 says it did not. */
  predicate MaybeApplied(a: Attempt) {
    !(a.Response? && a.code == 429)
  }

  function AppliedCount(world: nat -> Attempt, sent: nat): nat {
    if sent == 0 then 0 else AppliedCount(world, sent - 1) + (if MaybeApplied(world(sent - 1)) then 1 else 0)
  }

  /** It counts the attempts that met anything but a 429. */
  lemma {:induction false} AppliedExactly(world: nat -> Attempt, sent: nat)
    ensures AppliedCount(world, sent) == |set k | 0 <= k < sent && (world(k).TransportError? || world(k).code != 429)|
  {
    if sent > 0 {
      AppliedExactly(world, sent - 1);
      var before := set k | 0 <= k < sent - 1 && (world(k).TransportError? || world(k).code != 429);
      var after := set k | 0 <= k < sent && (world(k).TransportError? || world(k).code != 429);
      assert after == before + if MaybeApplied(world(sent - 1)) then {sent - 1} else {};
    }
  }

  lemma {:induction false} RepeatedNotApplied(world: nat -> Attempt, sent: nat)
    requires forall k :: 0 <= k < sent ==> Retryable(false, world(k))
    ensures AppliedCount(world, sent) == 0
  {
    if sent > 0 {
      RepeatedNotApplied(world, sent - 1);
      assert Retryable(false, world(sent - 1));
    }
  }

  /** Of all that `Request` sends for a call that is not idempotent, the server can have acted on the
      last attempt only, so at most once. */
  lemma {:induction false} AtMostOnce(world: nat -> Attempt, sent: nat)
    requires sent >= 1
    requires forall k :: 0 <= k < sent - 1 ==> Retryable(false, world(k))
    ensures AppliedCount(world, sent) == if MaybeApplied(world(sent - 1)) then 1 else 0
  {
    RepeatedNotApplied(world, sent - 1);
  }

  lemma {:induction false} AppliedAtMost(world: nat -> Attempt, sent: nat)
    ensures AppliedCount(world, sent) <= sent
  {
    if sent > 0 {
      AppliedAtMost(world, sent - 1);
    }
  }

  /** Whatever the attempts meet, the server acts at most once if and only if the call is not idempotent
      or is sent at most once: two timeouts may both have been applied, so only idempotent calls repeat
      them. */
  lemma AtMostOnceExactly(idempotent: bool, attempts: nat)
    requires attempts >= 1
    ensures (forall world: nat -> Attempt, sent: nat | Retries(world, idempotent, sent) && 1 <= sent <= attempts ::
               AppliedCount(world, sent) <= 1)
            <==> !idempotent || attempts == 1
  {
    if idempotent && attempts > 1 {
      var world := (k: nat) => TransportError;
      assert Retries(world, idempotent, 2);
      assert AppliedCount(world, 2) == 2;
    } else {
      forall world: nat -> Attempt, sent: nat | Retries(world, idempotent, sent) && 1 <= sent <= attempts
        ensures AppliedCount(world, sent) <= 1
      {
        if idempotent {
          AppliedAtMost(world, sent);
        } else {
          AtMostOnce(world, sent);
        }
      }
    }
  }

  /** All attempts but the last were repeated. */
  ghost predicate Retries(world: nat -> Attempt, idempotent: bool, sent: nat) {
    forall k :: 0 <= k < sent - 1 ==> Retryable(idempotent, world(k))
  }

  // --- time ----------------------------------------------------------------------------------

  function Sum(xs: seq<real>): real {
    if xs == [] then 0.0 else Sum(xs[..|xs| - 1]) + xs[|xs| - 1]
  }

  lemma {:induction false} SumBounded(xs: seq<real>, top: real)
    requires forall k :: 0 <= k < |xs| ==> xs[k] <= top
    ensures Sum(xs) <= |xs| as real * top
  {
    if xs != [] {
      SumBounded(xs[..|xs| - 1], top);
    }
  }

  lemma SumWithin(xs: seq<real>, top: real, n: nat)
    requires |xs| <= n && 0.0 <= top && forall k :: 0 <= k < |xs| ==> xs[k] <= top
    ensures Sum(xs) <= n as real * top
  {
    SumBounded(xs, top);
    var a, b := |xs| as real, n as real;
    assert a <= b;
    Scale(top, a, b);
    assert a * top <= b * top;
  }

  /** With attempts bounded by `a` and sleeps by `cap`, a request takes at most
      attempts * a + (attempts - 1) * cap. */
  lemma TimeBounded(durations: seq<real>, sleeps: seq<real>, attempts: nat, a: real, cap: real)
    requires 1 <= |durations| <= attempts && |sleeps| == |durations| - 1
    requires 0.0 <= a && 0.0 <= cap
    requires forall k :: 0 <= k < |durations| ==> durations[k] <= a
    requires forall k :: 0 <= k < |sleeps| ==> sleeps[k] <= cap
    ensures Sum(durations) + Sum(sleeps) <= attempts as real * a + (attempts - 1) as real * cap
  {
    SumWithin(durations, a, attempts);
    SumWithin(sleeps, cap, attempts - 1);
  }

  const CONNECT_TIMEOUT := 5.0
  const READ_TIMEOUT := 30.0

  /** Connecting, writing, reading and waiting for the pool, each up to its default timeout. */
  const ATTEMPT_SECONDS := CONNECT_TIMEOUT + READ_TIMEOUT + READ_TIMEOUT + CONNECT_TIMEOUT

  const DEFAULT_ATTEMPTS: nat := 4
  const DEFAULT_CAP := 20.0

  const DEFAULT_BASE := 0.5

  function Durations(took: nat -> real, sent: nat): seq<real> {
    seq(sent, k requires 0 <= k < sent => took(k))
  }

  /** The POST that creates a session, with the default settings: whatever its attempts meet, as long as
      each keeps its timeouts, the server acts on it at most once, and it ends well inside the creation
      lease. */
  method PostSession(world: nat -> Attempt, rand: nat -> real, ghost took: nat -> real)
    returns (outcome: Outcome, ghost applied: nat, ghost elapsed: real)
    requires forall k :: 0.0 <= rand(k) < 1.0
    requires forall k :: 0.0 <= took(k) <= 70.0
    ensures applied <= 1 && elapsed <= 340.0 < CREATE_LEASE_SECONDS as real
    ensures exists sent: nat, sleeps: seq<real> ::
              && 1 <= sent <= 4 && outcome == Final(world(sent - 1))
              && applied == AppliedCount(world, sent)
              && |sleeps| == sent - 1 && elapsed == Sum(Durations(took, sent)) + Sum(sleeps)
              && forall k :: 0 <= k < |sleeps| ==> sleeps[k] == Delay(k, world(k), 0.5, 20.0, rand(k))
  {
    var sent, sleeps, retries;
    outcome, sent, sleeps, retries := Request("POST", None, DEFAULT_ATTEMPTS, DEFAULT_BASE, DEFAULT_CAP, world, rand);
    PostNotIdempotent();
    AtMostOnce(world, sent);
    applied, elapsed := AppliedCount(world, sent), Sum(Durations(took, sent)) + Sum(sleeps);
    CreationFitsLease(Durations(took, sent), sleeps);
  }

  lemma PostNotIdempotent()
    ensures !Idempotent("POST", None)
  {
    assert Upper("POST") == "POST";
  }

  /** With the default settings a session creation ends well inside its creation lease. */
  lemma CreationFitsLease(durations: seq<real>, sleeps: seq<real>)
    requires 1 <= |durations| <= DEFAULT_ATTEMPTS && |sleeps| == |durations| - 1
    requires forall k :: 0 <= k < |durations| ==> durations[k] <= ATTEMPT_SECONDS
    requires forall k :: 0 <= k < |sleeps| ==> sleeps[k] <= DEFAULT_CAP
    ensures Sum(durations) + Sum(sleeps) <= 340.0 < CREATE_LEASE_SECONDS as real
  {
    TimeBounded(durations, sleeps, DEFAULT_ATTEMPTS, ATTEMPT_SECONDS, DEFAULT_CAP);
  }
}
