/** The daemon's loops: the state they update in place follows the claim discipline. */
module BranchWorkerDaemon {
  import opened RetryLoop
  import opened BranchWorker

  class ClaimCircuitBreaker {
    const cooldownSeconds: Duration
    var openUntil: real

    constructor (cooldownSeconds: Duration)
      ensures this.cooldownSeconds == cooldownSeconds && openUntil == 0.0
    {
      this.cooldownSeconds := cooldownSeconds;
      this.openUntil := 0.0;
    }

    method Trip(now: real)
      modifies this`openUntil
      ensures openUntil == now + cooldownSeconds
      ensures forall t: real :: IsOpen(t) <==> t < now + cooldownSeconds
    {
      openUntil := now + cooldownSeconds;
    }

    predicate IsOpen(now: real)
      reads this
    {
      now < openUntil
    }
  }

  class Daemon {
    const cfg: Config
    const breaker: ClaimCircuitBreaker
    /** The clock, and the active claims of this wallet on chain. */
    var clock: real
    var active: nat
    ghost var log: seq<Event>

    ghost predicate Valid()
      reads this, breaker
    {
      cfg.retry.Valid() && breaker.cooldownSeconds == cfg.cooldown
    }

    ghost function State(): Worker
      reads this, breaker
    {
      Worker(clock, breaker.openUntil, active, log)
    }

    constructor (cfg: Config, clock: real, active: nat)
      requires cfg.retry.Valid()
      ensures Valid() && fresh(breaker) && State() == Worker(clock, 0.0, active, []) && this.cfg == cfg
    {
      this.cfg := cfg;
      this.breaker := new ClaimCircuitBreaker(cfg.cooldown);
      this.clock := clock;
      this.active := active;
      this.log := [];
    }

    method Wait(elapsed: Duration, released: nat)
      modifies this`clock, this`active
      ensures State() == Later(old(State()), elapsed, released)
    {
      clock := clock + elapsed;
      active := Less(active, released);
    }

    method WaitInPass(elapsed: Duration, released: nat)
      modifies this`clock, this`active, this`log
      ensures State() == LaterInPass(old(State()), elapsed, released)
    {
      ghost var before := active;
      Wait(elapsed, released);
      log := log + [Freed(before - active)];
    }

    method Claim(job: OfferedJob, result: ClaimResult) returns (ok: bool)
      modifies this`active, this`log
      ensures State() == Claimed(old(State()), job, result) && ok == (result == Confirmed)
    {
      active := active + if Landed(result) then 1 else 0;
      log := log + [Event.Claim(clock, job, result, active)];
      return result == Confirmed;
    }

    method Abandon()
      requires Valid()
      modifies this`log, breaker
      ensures State() == BranchWorker.Abandon(old(State()), cfg)
    {
      log := log + [Abandoned(clock)];
      breaker.Trip(clock);
    }

    /** `run_once`. */
    method RunOnce(pass: Pass)
      requires Valid()
      modifies this, breaker
      ensures Valid() && Passes(cfg, old(State()), pass, State())
    {
      Wait(pass.idle, pass.released);
      if breaker.IsOpen(clock) {
        return;
      }
      var budget := cfg.maxClaims - active;
      if budget <= 0 {
        return;
      }
      log := log + [Began(budget)];
      ClaimOffers(budget, pass.offers);
    }

    /** The loop of `run_once` over the accounts of a pass. */
    method ClaimOffers(budget: int, offers: seq<Offer>)
      requires Valid()
      modifies this, breaker
      ensures Valid() && Offers(cfg, old(State()), old(clock), budget, offers, State())
    {
      var now := clock;
      var left := budget;
      ghost var first := State();
      for i := 0 to |offers|
        invariant Valid()
        invariant forall end :: Offers(cfg, State(), now, left, offers[i..], end) ==> Offers(cfg, first, now, budget, offers, end)
      {
        ghost var rest := offers[i..];
        assert rest[0] == offers[i] && rest[1..] == offers[i + 1..];
        var go, claims := ClaimOffer(now, left, offers[i], rest);
        if !go {
          return;
        }
        left := left - claims;
      }
      assert offers[|offers|..] == [];
    }

    /** One account: skipped, claimed and executed, or the end of the pass. */
    method ClaimOffer(now: real, left: int, offer: Offer, ghost rest: seq<Offer>) returns (go: bool, claims: nat)
      requires Valid() && rest != [] && rest[0] == offer
      modifies this, breaker
      ensures Valid()
      ensures !go ==> Offers(cfg, old(State()), now, left, rest, State())
      ensures go ==> forall end :: Offers(cfg, State(), now, left - claims, rest[1..], end) ==> Offers(cfg, old(State()), now, left, rest, end)
    {
      ghost var before := State();
      WaitInPass(offer.elapsed, offer.released);
      if !Matches(cfg, offer.job, now) {
        return true, 0;
      }
      if left <= 0 || !offer.preflight {
        return false, 0;
      }
      var claimed := Claim(offer.job, offer.claim);
      if !claimed {
        return true, 0;
      }
      ghost var held := State();
      var outcome, submits, finished := ExecuteClaimed(offer.claimed, cfg.retry, offer.tries, clock);
      clock := finished;
      if outcome.submitted {
        return true, 1;
      }
      Abandon();
      return false, 1;
    }

    /** `serve_forever`, for as many passes as it gets to make. */
    method Serve(passes: seq<Pass>) returns (ghost ws: seq<Worker>)
      requires Valid() && log == []
      modifies this, breaker
      ensures Valid() && Run(cfg, ws, passes) && ws[0] == old(State()) && ws[|passes|] == State()
      ensures Disciplined(cfg, log)
    {
      ws := [State()];
      for i := 0 to |passes|
        invariant Valid() && |ws| == i + 1 && ws[0] == old(State()) && ws[i] == State()
        invariant forall k :: 0 <= k < i ==> Passes(cfg, ws[k], passes[k], ws[k + 1])
      {
        RunOnce(passes[i]);
        ws := ws + [State()];
      }
      RunDisciplined(cfg, ws, passes, |passes|);
    }
  }
}
