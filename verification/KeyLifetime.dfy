/** The minted team key, its extension at half-life, and how many failed extensions in a row it
    survives when a tick comes at least once a minute. */
module KeyLifetime {
  import opened Wrappers

  const KEY_LIFETIME_SECONDS := 60 * 60
  const KEY_HALF_LIFE_SECONDS := KEY_LIFETIME_SECONDS / 2
  const TICK_SECONDS := 60
  const FATAL_FAILURES := KEY_HALF_LIFE_SECONDS / TICK_SECONDS

  datatype MintedKey = MintedKey(token: string, gatewayUrl: string, expiresAt: int,
                                 extendedAt: Option<int>, extensionFailed: bool)

  datatype ExtendAnswer = Extended(expiresAt: Option<int>) | ExtendUnauthorized | ExtendFailed

  predicate Due(key: MintedKey, now: int) {
    key.expiresAt > now && key.expiresAt - now <= KEY_HALF_LIFE_SECONDS
  }

  function GrantedUntil(expiresAt: Option<int>, now: int): int {
    if expiresAt.Some? then expiresAt.value else now + KEY_LIFETIME_SECONDS
  }

  /** The key after a due extension that was not answered 401. */
  function AfterExtension(key: MintedKey, now: int, answer: ExtendAnswer): MintedKey
    requires !answer.ExtendUnauthorized?
  {
    match answer
    case Extended(expiresAt) =>
      key.(expiresAt := GrantedUntil(expiresAt, now), extendedAt := Some(now), extensionFailed := false)
    case ExtendFailed => key.(extensionFailed := true)
  }

  /** One tick: its time, and the Gateway's answer should an extension be due. */
  datatype Tick = Tick(now: int, answer: ExtendAnswer)

  function AfterTick(key: MintedKey, tick: Tick): MintedKey
    requires !tick.answer.ExtendUnauthorized?
  {
    if Due(key, tick.now) then AfterExtension(key, tick.now, tick.answer) else key
  }

  /** Ticks follow one another within a minute, no extension is answered 401, and an extension
      that succeeds grants more than the half-life (the default lifetime does). */
  predicate Regular(start: int, ticks: seq<Tick>)
    decreases |ticks|
  {
    ticks == [] ||
    (&& start <= ticks[0].now <= start + TICK_SECONDS
     && !ticks[0].answer.ExtendUnauthorized?
     && (ticks[0].answer.Extended? ==>
           GrantedUntil(ticks[0].answer.expiresAt, ticks[0].now) > ticks[0].now + KEY_HALF_LIFE_SECONDS)
     && Regular(ticks[0].now, ticks[1..]))
  }

  /** Failed due extensions in a row, this tick included. */
  function Streak(key: MintedKey, tick: Tick, before: nat): nat {
    if !Due(key, tick.now) then before else if tick.answer.ExtendFailed? then before + 1 else 0
  }

  /** Before every tick fewer than `budget` due extensions in a row have failed. */
  predicate WithinBudget(key: MintedKey, ticks: seq<Tick>, failures: nat, budget: nat, start: int)
    requires Regular(start, ticks)
    decreases |ticks|
  {
    ticks == [] ||
    (&& failures < budget
     && WithinBudget(AfterTick(key, ticks[0]), ticks[1..], Streak(key, ticks[0], failures), budget, ticks[0].now))
  }

  /** The key has not expired when any of the ticks comes. */
  predicate Alive(key: MintedKey, ticks: seq<Tick>, start: int)
    requires Regular(start, ticks)
    decreases |ticks|
  {
    ticks == [] ||
    (key.expiresAt > ticks[0].now && Alive(AfterTick(key, ticks[0]), ticks[1..], ticks[0].now))
  }

  /** After `failures` failed extensions in a row this much lifetime is left at least. */
  predicate Reserve(key: MintedKey, now: int, failures: nat) {
    key.expiresAt - now > KEY_HALF_LIFE_SECONDS - TICK_SECONDS * failures
  }

  lemma {:induction false} ReserveKeepsAlive(key: MintedKey, ticks: seq<Tick>, failures: nat, start: int)
    requires Regular(start, ticks) && WithinBudget(key, ticks, failures, FATAL_FAILURES, start)
    requires Reserve(key, start, failures)
    ensures Alive(key, ticks, start)
    decreases |ticks|
  {
    if ticks != [] {
      ReserveKeepsAlive(AfterTick(key, ticks[0]), ticks[1..], Streak(key, ticks[0], failures), ticks[0].now);
    }
  }

  /** Every schedule of ticks, answered with fewer than `budget` failures in a row, keeps a freshly
      minted key alive. */
  ghost predicate BudgetSuffices(budget: nat) {
    forall key: MintedKey, ticks: seq<Tick>, start: int ::
      Regular(start, ticks) && key.expiresAt > start + KEY_HALF_LIFE_SECONDS
      && WithinBudget(key, ticks, 0, budget, start)
      ==> Alive(key, ticks, start)
  }

  function FailingTicks(now: int, n: nat): seq<Tick>
    decreases n
  {
    if n == 0 then [] else [Tick(now + TICK_SECONDS, ExtendFailed)] + FailingTicks(now + TICK_SECONDS, n - 1)
  }

  lemma {:induction false} FailingTicksStarve(key: MintedKey, now: int, failures: nat, budget: nat)
    requires failures <= FATAL_FAILURES < budget
    requires key.expiresAt - now == KEY_HALF_LIFE_SECONDS + 1 - TICK_SECONDS * failures
    ensures var ticks := FailingTicks(now, FATAL_FAILURES + 1 - failures);
            Regular(now, ticks) && WithinBudget(key, ticks, failures, budget, now) && !Alive(key, ticks, now)
    decreases FATAL_FAILURES - failures
  {
    var ticks := FailingTicks(now, FATAL_FAILURES + 1 - failures);
    assert ticks[1..] == FailingTicks(now + TICK_SECONDS, FATAL_FAILURES - failures);
    if failures < FATAL_FAILURES {
      FailingTicksStarve(AfterTick(key, ticks[0]), now + TICK_SECONDS, failures + 1, budget);
    }
  }

  /** The half-life in ticks, 30, is exactly the number of failed extensions in a row that a key does
      not survive: a budget keeps every key alive under every schedule if and only if it is at most 30. */
  lemma ThirtyFailuresIsExact(budget: nat)
    ensures BudgetSuffices(budget) <==> budget <= FATAL_FAILURES
  {
    if budget <= FATAL_FAILURES {
      forall key: MintedKey, ticks: seq<Tick>, start: int
        | Regular(start, ticks) && key.expiresAt > start + KEY_HALF_LIFE_SECONDS && WithinBudget(key, ticks, 0, budget, start)
        ensures Alive(key, ticks, start)
      {
        BudgetGrows(key, ticks, 0, budget, start);
        ReserveKeepsAlive(key, ticks, 0, start);
      }
    } else {
      var key := MintedKey("", "", KEY_HALF_LIFE_SECONDS + 1, None, false);
      FailingTicksStarve(key, 0, 0, budget);
      assert !Alive(key, FailingTicks(0, FATAL_FAILURES + 1), 0);
    }
  }

  lemma BudgetGrows(key: MintedKey, ticks: seq<Tick>, failures: nat, budget: nat, start: int)
    requires Regular(start, ticks) && WithinBudget(key, ticks, failures, budget, start) && budget <= FATAL_FAILURES
    ensures WithinBudget(key, ticks, failures, FATAL_FAILURES, start)
    decreases |ticks|
  {
    if ticks != [] {
      BudgetGrows(AfterTick(key, ticks[0]), ticks[1..], Streak(key, ticks[0], failures), budget, ticks[0].now);
    }
  }
}
