/** `connectWithRetry`: the start-up loop that tries to authenticate with
    the database and synchronise the schema, up to `retries` times, sleeping
    `delay` milliseconds between a failed attempt and the next one. The
    database is replaced by `env`, the outcome of each attempt in turn, and
    the sleep by a `Sleep` event in the returned log. */
module Bootstrap {
  import opened Js

  const DefaultRetries := 5
  const DefaultDelay := 5000

  /** How one attempt goes: `sequelize.authenticate()` and, only if that
      succeeded, `sequelize.sync()`. */
  datatype Attempt = Attempt(authenticated: bool, synced: bool)

  /** An attempt succeeds only when both steps succeed; a failed `sync`
      after a successful `authenticate` is a failed attempt. */
  predicate Succeeds(a: Attempt) {
    a.authenticated && a.synced
  }

  /** What the loop does that takes effect outside it: an attempt, or a
      sleep of the given number of milliseconds. */
  datatype Event = Try | Sleep(ms: int)

  /** The position of the first successful attempt in `env`, or `|env|`
      when none succeeds. */
  function FirstSuccess(env: seq<Attempt>): (k: nat)
    ensures k <= |env|
    ensures k < |env| ==> Succeeds(env[k])
    ensures forall i | 0 <= i < k :: !Succeeds(env[i])
  {
    if env == [] then 0
    else if Succeeds(env[0]) then 0
    else 1 + FirstSuccess(env[1..])
  }

  /** The number of attempts `connectWithRetry(retries, …)` makes. */
  function Attempts(retries: int, env: seq<Attempt>): nat {
    if retries <= 0 then 0
    else if FirstSuccess(env) < retries then FirstSuccess(env) + 1
    else retries
  }

  /** The value the promise resolves to: `true`, `false`, or `undefined`
      when the loop body never runs. */
  function Connected(retries: int, env: seq<Attempt>): JsValue {
    if retries <= 0 then Undefined
    else Bool(FirstSuccess(env) < retries)
  }

  /** `n` attempts with a sleep between each two consecutive ones. */
  function Schedule(n: nat, delay: int): seq<Event> {
    if n == 0 then []
    else if n == 1 then [Try]
    else Schedule(n - 1, delay) + [Sleep(delay), Try]
  }

  function CountTries(log: seq<Event>): nat {
    if log == [] then 0
    else CountTries(log[..|log| - 1]) + (if log[|log| - 1] == Try then 1 else 0)
  }

  function CountSleeps(log: seq<Event>): nat {
    if log == [] then 0
    else CountSleeps(log[..|log| - 1]) + (if log[|log| - 1].Sleep? then 1 else 0)
  }

  /** `env` lists the outcome of every attempt the loop may make, so it
      has at least `retries` entries. */
  method ConnectWithRetry(retries: int, delay: int, env: seq<Attempt>)
      returns (connected: JsValue, log: seq<Event>)
    requires retries <= |env|
    ensures connected == Connected(retries, env)
    ensures log == Schedule(Attempts(retries, env), delay)
  {
    var currentTry := 0;
    log := [];
    while currentTry < retries
      invariant 0 <= currentTry
      invariant currentTry > 0 ==> currentTry < retries
      invariant forall i | 0 <= i < currentTry :: !Succeeds(env[i])
      invariant log == if currentTry == 0 then [] else Schedule(currentTry, delay) + [Sleep(delay)]
      decreases retries - currentTry
    {
      log := log + [Try];
      if Succeeds(env[currentTry]) {
        connected := Bool(true);
        return;
      }
      currentTry := currentTry + 1;
      if currentTry == retries {
        connected := Bool(false);
        return;
      }
      log := log + [Sleep(delay)];
    }
    connected := Undefined;
  }

  /** The call made at start-up, with the default arguments. */
  method ConnectOnStartup(env: seq<Attempt>) returns (connected: JsValue, log: seq<Event>)
    requires DefaultRetries <= |env|
    ensures connected == Bool(true) || connected == Bool(false)
    ensures connected == Bool(true) <==> exists i | 0 <= i < DefaultRetries :: Succeeds(env[i])
    ensures CountTries(log) <= DefaultRetries
    ensures forall i | 0 <= i < |log| && log[i].Sleep? :: log[i] == Sleep(DefaultDelay)
  {
    connected, log := ConnectWithRetry(DefaultRetries, DefaultDelay, env);
    var n := Attempts(DefaultRetries, env);
    ScheduleCounts(n, DefaultDelay);
    ScheduleShape(n, DefaultDelay);
    if connected == Bool(false) {
      assert FirstSuccess(env) >= DefaultRetries;
    }
  }

  /** A schedule of `n` attempts holds `n` attempts and `n - 1` sleeps. */
  lemma {:induction false} ScheduleCounts(n: nat, delay: int)
    ensures CountTries(Schedule(n, delay)) == n
    ensures CountSleeps(Schedule(n, delay)) == if n == 0 then 0 else n - 1
  {
    if n > 1 {
      ScheduleCounts(n - 1, delay);
      var s := Schedule(n - 1, delay);
      var s1 := s + [Sleep(delay)];
      assert Schedule(n, delay) == s1 + [Try];
      assert (s1 + [Try])[..|s1|] == s1;
      assert s1[..|s|] == s;
      assert CountTries(s1) == CountTries(s);
      assert CountSleeps(s1) == CountSleeps(s) + 1;
    }
  }

  /** Every sleep lasts `delay` and sits between two attempts: the log
      never starts or ends with a sleep. */
  lemma {:induction false} ScheduleShape(n: nat, delay: int)
    ensures var log := Schedule(n, delay);
      forall i | 0 <= i < |log| && log[i].Sleep? ::
        && log[i] == Sleep(delay)
        && 0 < i < |log| - 1
        && log[i - 1] == Try && log[i + 1] == Try
    ensures n > 0 ==> Schedule(n, delay)[0] == Try && Schedule(n, delay)[|Schedule(n, delay)| - 1] == Try
  {
    if n > 1 {
      ScheduleShape(n - 1, delay);
    }
  }

  /** At most `retries` attempts are made, none at all when `retries <= 0`,
      and the loop resolves to `undefined` exactly then. */
  lemma AttemptsBounded(retries: int, env: seq<Attempt>)
    ensures retries <= 0 ==> Attempts(retries, env) == 0 && Connected(retries, env) == Undefined
    ensures retries > 0 ==> 1 <= Attempts(retries, env) <= retries
    ensures Connected(retries, env) == Undefined <==> retries <= 0
  {
  }

  /** On success the last attempt made is the first one that succeeds,
      every earlier attempt failed, and a sleep followed each of them. */
  lemma {:induction false} SuccessStopsAtFirst(retries: int, delay: int, env: seq<Attempt>)
    requires retries <= |env|
    requires Connected(retries, env) == Bool(true)
    ensures var n := Attempts(retries, env);
      && n >= 1
      && Succeeds(env[n - 1])
      && (forall i | 0 <= i < n - 1 :: !Succeeds(env[i]))
      && CountSleeps(Schedule(n, delay)) == n - 1
  {
    ScheduleCounts(Attempts(retries, env), delay);
  }

  /** The loop gives up only after `retries` failed attempts in a row, and
      sleeps `retries - 1` times: never after the last one. */
  lemma {:induction false} FailureAfterAllRetries(retries: int, delay: int, env: seq<Attempt>)
    requires retries <= |env|
    requires Connected(retries, env) == Bool(false)
    ensures Attempts(retries, env) == retries
    ensures forall i | 0 <= i < retries :: !Succeeds(env[i])
    ensures CountSleeps(Schedule(retries, delay)) == retries - 1
    ensures Schedule(retries, delay)[|Schedule(retries, delay)| - 1] == Try
  {
    ScheduleCounts(retries, delay);
    ScheduleShape(retries, delay);
  }

  /** Whether the loop connects depends only on the first `retries`
      attempts: one success among them is enough. */
  lemma {:induction false} ConnectsIffSomeAttemptSucceeds(retries: int, env: seq<Attempt>)
    requires 0 < retries <= |env|
    ensures Connected(retries, env) == Bool(true) <==>
      exists i | 0 <= i < retries :: Succeeds(env[i])
  {
    if FirstSuccess(env) < retries {
      assert Succeeds(env[FirstSuccess(env)]);
    }
  }
}
