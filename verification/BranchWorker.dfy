/** The branch worker's claim discipline: a budget read from the chain, a circuit breaker, and at most
    one abandoned claim per pass. */
module BranchWorker {
  import opened Results
  import opened RetryLoop

  // ----- which jobs match

  /** The fields of an account that the worker matches on. */
  datatype OfferedJob = OfferedJob(
    isOpen: bool, isBranchProof: bool, claimDeadline: real, anyCapability: bool, capabilityKnown: bool,
    anyDigest: bool, digestKnown: bool, role: nat, tier: nat)

  datatype Config = Config(maxClaims: nat, cooldown: Duration, retry: Retry, role: nat, tier: nat)

  predicate Matches(cfg: Config, job: OfferedJob, now: real) {
    && job.isOpen && job.isBranchProof && now <= job.claimDeadline
    && (job.capabilityKnown || job.anyCapability)
    && (job.digestKnown || job.anyDigest)
    && !(job.role > cfg.role && job.role in {1, 2, 3})
    && !(job.role !in {cfg.role, 1, 2, 3} && job.role != cfg.role)
    && job.tier <= cfg.tier
  }

  // ----- the world and what is remembered of it

  /** `claim_job`: confirmed; or an error is reported, whether or not the transaction landed. */
  datatype ClaimResult = Confirmed | ErrorLanded | ErrorLost

  /** One account of a pass: how long the worker took to get to it, how many of its claims ended
      meanwhile, and what happens if it is claimed. */
  datatype Offer = Offer(job: OfferedJob, elapsed: Duration, released: nat, preflight: bool,
                         claim: ClaimResult, claimed: Option<ClaimedJob>, tries: nat -> Try)

  datatype Pass = Pass(idle: Duration, released: nat, offers: seq<Offer>)

  /** What is remembered: passes with the budget they read, claims that ended during a pass, claims with
      the active claims after them, abandonments. */
  datatype Event =
    | Began(budget: nat)
    | Freed(count: nat)
    | Claim(at: real, job: OfferedJob, result: ClaimResult, active: nat)
    | Abandoned(at: real)

  datatype Worker = Worker(now: real, openUntil: real, active: nat, log: seq<Event>)

  predicate Landed(result: ClaimResult) { result != ErrorLost }

  function Less(active: nat, released: nat): nat {
    if active >= released then active - released else 0
  }

  /** Time passes and claims end. */
  function Later(w: Worker, elapsed: Duration, released: nat): Worker {
    w.(now := w.now + elapsed, active := Less(w.active, released))
  }

  /** The same between two accounts of a pass: the claims that end meanwhile are remembered. */
  function LaterInPass(w: Worker, elapsed: Duration, released: nat): Worker {
    var later := Later(w, elapsed, released);
    later.(log := w.log + [Freed(w.active - later.active)])
  }

  function Claimed(w: Worker, job: OfferedJob, result: ClaimResult): Worker {
    var active := w.active + if Landed(result) then 1 else 0;
    w.(active := active, log := w.log + [Claim(w.now, job, result, active)])
  }

  function Abandon(w: Worker, cfg: Config): Worker {
    w.(openUntil := w.now + cfg.cooldown, log := w.log + [Abandoned(w.now)])
  }

  // ----- what one pass may do

  /** From `w`, the accounts of one pass with a budget may lead to `end`. */
  ghost predicate Offers(cfg: Config, w: Worker, passNow: real, budget: int, offers: seq<Offer>, end: Worker)
    decreases |offers|
  {
    if offers == [] then end == w
    else
      var o := offers[0];
      var here := LaterInPass(w, o.elapsed, o.released);
      if !Matches(cfg, o.job, passNow) then Offers(cfg, here, passNow, budget, offers[1..], end)
      else if budget <= 0 || !o.preflight then end == here
      else
        var claimed := Claimed(here, o.job, o.claim);
        if o.claim != Confirmed then Offers(cfg, claimed, passNow, budget, offers[1..], end)
        else exists outcome, submits, finished ::
               && Executes(o.tries, cfg.retry, claimed.now, o.claimed, outcome, submits, finished)
               && if outcome.submitted then Offers(cfg, claimed.(now := finished), passNow, budget - 1, offers[1..], end)
                  else end == Abandon(claimed.(now := finished), cfg)
  }

  /** One pass: nothing while the breaker is open or the budget is used up. */
  ghost predicate Passes(cfg: Config, w: Worker, pass: Pass, end: Worker) {
    var here := Later(w, pass.idle, pass.released);
    if here.now < here.openUntil || cfg.maxClaims <= here.active then end == here
    else Offers(cfg, here.(log := here.log + [Began(cfg.maxClaims - here.active)]), here.now, cfg.maxClaims - here.active, pass.offers, end)
  }

  ghost predicate Run(cfg: Config, ws: seq<Worker>, passes: seq<Pass>) {
    |ws| == |passes| + 1 && forall i :: 0 <= i < |passes| ==> Passes(cfg, ws[i], passes[i], ws[i + 1])
  }

  // ----- what one pass does

  /** A job the worker may take: open, of the right class, not past its claim deadline, asking for nothing the
      worker lacks, and for its own role or one of the three ordered roles below it. */
  predicate Suits(cfg: Config, job: OfferedJob, now: real) {
    && job.isOpen && job.isBranchProof && job.claimDeadline >= now
    && (job.anyCapability || job.capabilityKnown) && (job.anyDigest || job.digestKnown)
    && (job.role == cfg.role || (1 <= job.role <= 3 && job.role < cfg.role))
    && job.tier <= cfg.tier
  }

  lemma MatchesExactly(cfg: Config, job: OfferedJob, now: real)
    ensures Matches(cfg, job, now) <==> Suits(cfg, job, now)
  {
  }

  /** The claims in a log: the job and how claiming it ended. */
  function ClaimsIn(log: seq<Event>): seq<(OfferedJob, ClaimResult)> {
    if log == [] then []
    else ClaimsIn(log[..|log| - 1]) + match log[|log| - 1] case Claim(_, job, result, _) => [(job, result)] case _ => []
  }

  /** The accounts that suit, in order, as claims. */
  function Suiting(cfg: Config, now: real, offers: seq<Offer>): seq<(OfferedJob, ClaimResult)> {
    if offers == [] then []
    else (if Suits(cfg, offers[0].job, now) then [(offers[0].job, offers[0].claim)] else []) + Suiting(cfg, now, offers[1..])
  }

  /** How many of them were confirmed. */
  function ConfirmedIn(cfg: Config, now: real, offers: seq<Offer>): nat {
    if offers == [] then 0
    else (if Suits(cfg, offers[0].job, now) && offers[0].claim == Confirmed then 1 else 0) + ConfirmedIn(cfg, now, offers[1..])
  }

  /** A pass went through the first `n` accounts: it claimed every one of them that suits, each with budget left
      and after a preflight that passed; and it stopped there because there are no more, or the next that suits
      finds the budget used up or fails its preflight, or the last one was claimed and abandoned. */
  ghost predicate Went(cfg: Config, now: real, budget: int, offers: seq<Offer>, n: nat, abandoned: bool) {
    && n <= |offers|
    && (forall i :: 0 <= i < n && Suits(cfg, offers[i].job, now) ==> offers[i].preflight && ConfirmedIn(cfg, now, offers[..i]) < budget)
    && (|| (n == |offers| && !abandoned)
        || (n < |offers| && !abandoned && Suits(cfg, offers[n].job, now)
            && (budget <= ConfirmedIn(cfg, now, offers[..n]) || !offers[n].preflight))
        || (n > 0 && abandoned && Suits(cfg, offers[n - 1].job, now) && offers[n - 1].claim == Confirmed))
  }

  /** What a pass adds to the log: those claims, and the abandonment if there was one. */
  ghost predicate Claims(cfg: Config, now: real, offers: seq<Offer>, n: nat, abandoned: bool, added: seq<Event>) {
    && n <= |offers| && ClaimsIn(added) == Suiting(cfg, now, offers[..n])
    && (abandoned <==> added != [] && added[|added| - 1].Abandoned?)
  }

  lemma {:induction false} ClaimsInSplit(a: seq<Event>, b: seq<Event>)
    ensures ClaimsIn(a + b) == ClaimsIn(a) + ClaimsIn(b)
    decreases |b|
  {
    if b == [] {
      assert a + b == a;
    } else {
      ClaimsInSplit(a, b[..|b| - 1]);
      assert (a + b)[..|a + b| - 1] == a + b[..|b| - 1];
    }
  }

  lemma OfferFirst(cfg: Config, now: real, offers: seq<Offer>, n: nat)
    requires 1 <= n <= |offers|
    ensures offers[..n][0] == offers[0] && offers[..n][1..] == offers[1..][..n - 1]
  {
  }

  /** One more account in front. */
  lemma WentFurther(cfg: Config, now: real, budget: int, offers: seq<Offer>, n: nat, abandoned: bool)
    requires offers != []
    requires var o := offers[0];
             var left := if Suits(cfg, o.job, now) && o.claim == Confirmed then budget - 1 else budget;
             Went(cfg, now, left, offers[1..], n, abandoned) && (Suits(cfg, o.job, now) ==> o.preflight && budget > 0)
    ensures Went(cfg, now, budget, offers, n + 1, abandoned)
  {
    hide Suits;
    var rest := offers[1..];
    forall i | 0 <= i < n + 1 && Suits(cfg, offers[i].job, now)
      ensures offers[i].preflight && ConfirmedIn(cfg, now, offers[..i]) < budget
    {
      if i > 0 {
        OfferFirst(cfg, now, offers, i);
        assert offers[i] == rest[i - 1];
      } else {
        assert offers[..0] == [];
      }
    }
    OfferFirst(cfg, now, offers, n + 1);
    assert n < |rest| ==> rest[n] == offers[n + 1];
    assert n > 0 ==> rest[n - 1] == offers[n];
  }

  lemma ClaimsFurther(cfg: Config, now: real, offers: seq<Offer>, n: nat, abandoned: bool, first: seq<Event>, added: seq<Event>)
    requires offers != [] && Claims(cfg, now, offers[1..], n, abandoned, added)
    requires ClaimsIn(first) == if Suits(cfg, offers[0].job, now) then [(offers[0].job, offers[0].claim)] else []
    requires first != [] && !first[|first| - 1].Abandoned?
    ensures Claims(cfg, now, offers, n + 1, abandoned, first + added)
  {
    hide Suits;
    ClaimsInSplit(first, added);
    OfferFirst(cfg, now, offers, n + 1);
  }

  lemma NowhereFurther(cfg: Config, now: real, budget: int, offers: seq<Offer>, added: seq<Event>)
    requires ClaimsIn(added) == [] && (added == [] || !added[|added| - 1].Abandoned?)
    requires offers == [] || (Suits(cfg, offers[0].job, now) && (budget <= 0 || !offers[0].preflight))
    ensures Went(cfg, now, budget, offers, 0, false) && Claims(cfg, now, offers, 0, false, added)
  {
    assert offers[..0] == [];
  }

  lemma FreedClaimsNothing(count: nat)
    ensures ClaimsIn([Freed(count)]) == []
  {
    assert [Freed(count)][..0] == [];
  }

  lemma ClaimClaims(freed: nat, at: real, job: OfferedJob, result: ClaimResult, active: nat)
    ensures ClaimsIn([Freed(freed), Claim(at, job, result, active)]) == [(job, result)]
  {
    FreedClaimsNothing(freed);
    assert [Freed(freed), Claim(at, job, result, active)][..1] == [Freed(freed)];
  }

  lemma AbandonsOne(cfg: Config, now: real, budget: int, offers: seq<Offer>, first: seq<Event>, at: real)
    requires offers != [] && Suits(cfg, offers[0].job, now) && offers[0].claim == Confirmed && offers[0].preflight && budget > 0
    requires ClaimsIn(first) == [(offers[0].job, offers[0].claim)]
    ensures Went(cfg, now, budget, offers, 1, true) && Claims(cfg, now, offers, 1, true, first + [Abandoned(at)])
  {
    ClaimsInSplit(first, [Abandoned(at)]);
    assert [Abandoned(at)][..0] == [];
    assert offers[..1] == [offers[0]] && offers[..0] == [] && [offers[0]][1..] == [];
  }

  lemma {:induction false} OffersGo(cfg: Config, w: Worker, now: real, budget: int, offers: seq<Offer>, end: Worker)
    returns (n: nat, abandoned: bool)
    requires Offers(cfg, w, now, budget, offers, end)
    ensures w.log <= end.log && Went(cfg, now, budget, offers, n, abandoned)
    ensures Claims(cfg, now, offers, n, abandoned, end.log[|w.log|..])
    decreases |offers|
  {
    hide Went, Claims, Executes, Suits, Matches, ClaimsIn;
    if offers == [] {
      n, abandoned := 0, false;
      assert end.log[|w.log|..] == [];
      NoClaims();
      NowhereFurther(cfg, now, budget, offers, []);
      return;
    }
    var o, rest := offers[0], offers[1..];
    MatchesExactly(cfg, o.job, now);
    var here := LaterInPass(w, o.elapsed, o.released);
    var freed := w.active - here.active;
    var first := [Freed(freed)];
    assert here.log == w.log + first;
    FreedClaimsNothing(freed);
    if !Suits(cfg, o.job, now) {
      n, abandoned := OffersGo(cfg, here, now, budget, rest, end);
      WentFurther(cfg, now, budget, offers, n, abandoned);
      ClaimsFurther(cfg, now, offers, n, abandoned, first, end.log[|here.log|..]);
      assert end.log[|w.log|..] == first + end.log[|here.log|..];
      n := n + 1;
    } else if budget <= 0 || !o.preflight {
      n, abandoned := 0, false;
      assert end.log[|w.log|..] == first;
      NowhereFurther(cfg, now, budget, offers, first);
    } else {
      n, abandoned := ClaimGoes(cfg, w, here, now, budget, offers, end, first);
    }
  }

  lemma NoClaims()
    ensures ClaimsIn([]) == []
  {
  }

  lemma {:induction false} ClaimGoes(cfg: Config, w: Worker, here: Worker, now: real, budget: int, offers: seq<Offer>, end: Worker, first: seq<Event>)
    returns (n: nat, abandoned: bool)
    requires offers != [] && Suits(cfg, offers[0].job, now) && budget > 0 && offers[0].preflight
    requires |first| == 1 && first[0].Freed? && here.log == w.log + first
    requires var o, claimed := offers[0], Claimed(here, offers[0].job, offers[0].claim);
             if o.claim != Confirmed then Offers(cfg, claimed, now, budget, offers[1..], end)
             else exists outcome, submits, finished ::
                    && Executes(o.tries, cfg.retry, claimed.now, o.claimed, outcome, submits, finished)
                    && if outcome.submitted then Offers(cfg, claimed.(now := finished), now, budget - 1, offers[1..], end)
                       else end == Abandon(claimed.(now := finished), cfg)
    ensures w.log <= end.log && Went(cfg, now, budget, offers, n, abandoned)
    ensures Claims(cfg, now, offers, n, abandoned, end.log[|w.log|..])
    decreases |offers|, 0
  {
    hide Went, Claims, Executes, Suits, Matches, ClaimsIn;
    var o, rest := offers[0], offers[1..];
    var claimed := Claimed(here, o.job, o.claim);
    var event := claimed.log[|here.log|];
    var both := [first[0], event];
    ClaimClaims(first[0].count, event.at, o.job, o.claim, event.active);
    assert claimed.log == w.log + both;
    var from := claimed;
    if o.claim == Confirmed {
      var outcome, submits, finished :|
        && Executes(o.tries, cfg.retry, claimed.now, o.claimed, outcome, submits, finished)
        && if outcome.submitted then Offers(cfg, claimed.(now := finished), now, budget - 1, rest, end)
           else end == Abandon(claimed.(now := finished), cfg);
      if !outcome.submitted {
        n, abandoned := 1, true;
        AbandonsOne(cfg, now, budget, offers, both, finished);
        assert end.log[|w.log|..] == both + [Abandoned(finished)];
        return;
      }
      from := claimed.(now := finished);
    }
    n, abandoned := OffersGo(cfg, from, now, if o.claim == Confirmed then budget - 1 else budget, rest, end);
    WentFurther(cfg, now, budget, offers, n, abandoned);
    ClaimsFurther(cfg, now, offers, n, abandoned, both, end.log[|claimed.log|..]);
    assert end.log[|w.log|..] == both + end.log[|claimed.log|..];
    n := n + 1;
  }

  /** What every pass does, from the accounts it is shown: nothing while the breaker is open or the cap is reached;
      otherwise it starts with the cap less the active claims as its budget and claims, in order, exactly the accounts
      that suit up to where it stops. */
  lemma PassGoes(cfg: Config, w: Worker, pass: Pass, end: Worker) returns (n: nat, abandoned: bool)
    requires Passes(cfg, w, pass, end)
    ensures var now, active := w.now + pass.idle, Less(w.active, pass.released);
            if now < w.openUntil || cfg.maxClaims <= active then end == w.(now := now, active := active)
            else
              && w.log + [Began(cfg.maxClaims - active)] <= end.log
              && Went(cfg, now, cfg.maxClaims - active, pass.offers, n, abandoned)
              && Claims(cfg, now, pass.offers, n, abandoned, end.log[|w.log| + 1..])
  {
    var here := Later(w, pass.idle, pass.released);
    n, abandoned := 0, false;
    if here.openUntil <= here.now && here.active < cfg.maxClaims {
      var began := here.(log := here.log + [Began(cfg.maxClaims - here.active)]);
      hide Went, Claims, Offers;
      n, abandoned := OffersGo(cfg, began, here.now, cfg.maxClaims - here.active, pass.offers, end);
    }
  }

  // ----- the discipline

  /** Claims since the pass began that landed although an error was reported. */
  function Unseen(log: seq<Event>): nat {
    if log == [] then 0
    else
      var last := log[|log| - 1];
      if last.Began? then 0 else Unseen(log[..|log| - 1]) + if last.Claim? && last.result == ErrorLanded then 1 else 0
  }

  /** The budget the pass read, less the claims it saw confirmed. */
  function BudgetLeft(log: seq<Event>): int {
    if log == [] then 0
    else
      var last := log[|log| - 1];
      if last.Began? then last.budget else BudgetLeft(log[..|log| - 1]) - if last.Claim? && last.result == Confirmed then 1 else 0
  }

  /** Claims that ended since the pass began. */
  function EndedSince(log: seq<Event>): nat {
    if log == [] then 0
    else
      var last := log[|log| - 1];
      if last.Began? then 0 else EndedSince(log[..|log| - 1]) + if last.Freed? then last.count else 0
  }

  /** The account of the active claims: each landed claim is made with budget left, and the active claims
      after it are the cap, one more, and the unseen claims before it in its pass, less the budget then left
      and the claims that ended since. */
  ghost predicate CapKept(cfg: Config, log: seq<Event>) {
    forall k :: 0 <= k < |log| && log[k].Claim? ==>
      && BudgetLeft(log[..k]) >= 1
      && (Landed(log[k].result) ==>
            log[k].active == cfg.maxClaims + 1 + Unseen(log[..k]) - BudgetLeft(log[..k]) - EndedSince(log[..k]))
  }

  /** Whatever follows an abandonment is a later pass. */
  ghost predicate OneAbandonPerPass(log: seq<Event>) {
    forall k :: 0 <= k < |log| - 1 && log[k].Abandoned? ==> log[k + 1].Began?
  }

  ghost predicate CoolsDown(cfg: Config, log: seq<Event>) {
    forall i, j :: 0 <= i < j < |log| && log[i].Abandoned? && log[j].Claim? ==> log[i].at + cfg.cooldown <= log[j].at
  }

  ghost predicate Disciplined(cfg: Config, log: seq<Event>) {
    CapKept(cfg, log) && OneAbandonPerPass(log) && CoolsDown(cfg, log)
  }

  /** No claim before every past abandonment has cooled down: the breaker knows the latest one. */
  ghost predicate BreakerCovers(cfg: Config, w: Worker) {
    forall i :: 0 <= i < |w.log| && w.log[i].Abandoned? ==> w.log[i].at + cfg.cooldown <= w.openUntil
  }

  ghost predicate Between(cfg: Config, w: Worker) {
    Disciplined(cfg, w.log) && BreakerCovers(cfg, w)
  }

  /** Inside a pass: the breaker is closed, the last event is not an abandonment, and active claims, budget
      left and ended claims add up to the cap and the unseen claims. */
  ghost predicate Within(cfg: Config, w: Worker, budget: int) {
    && Between(cfg, w) && w.openUntil <= w.now
    && (w.log != [] ==> !w.log[|w.log| - 1].Abandoned?)
    && budget == BudgetLeft(w.log)
    && w.active + budget + EndedSince(w.log) == cfg.maxClaims + Unseen(w.log)
  }

  lemma CapExtends(cfg: Config, log: seq<Event>, e: Event)
    requires CapKept(cfg, log)
    requires e.Claim? ==> BudgetLeft(log) >= 1
    requires e.Claim? && Landed(e.result) ==> e.active == cfg.maxClaims + 1 + Unseen(log) - BudgetLeft(log) - EndedSince(log)
    ensures CapKept(cfg, log + [e])
  {
    hide Unseen, BudgetLeft, EndedSince;
    assert (log + [e])[..|log|] == log;
    assert forall k :: 0 <= k < |log| ==> (log + [e])[..k] == log[..k];
  }

  lemma LogExtends(cfg: Config, log: seq<Event>, e: Event)
    requires Disciplined(cfg, log)
    requires e.Claim? ==> BudgetLeft(log) >= 1
    requires e.Claim? && Landed(e.result) ==> e.active == cfg.maxClaims + 1 + Unseen(log) - BudgetLeft(log) - EndedSince(log)
    requires log != [] && log[|log| - 1].Abandoned? ==> e.Began?
    requires e.Claim? ==> forall i :: 0 <= i < |log| && log[i].Abandoned? ==> log[i].at + cfg.cooldown <= e.at
    ensures Disciplined(cfg, log + [e])
  {
    CapExtends(cfg, log, e);
    hide CapKept, Unseen, BudgetLeft, EndedSince;
  }

  lemma CountsExtend(log: seq<Event>, e: Event)
    ensures Unseen(log + [e]) == if e.Began? then 0 else Unseen(log) + if e.Claim? && e.result == ErrorLanded then 1 else 0
    ensures BudgetLeft(log + [e]) == if e.Began? then e.budget else BudgetLeft(log) - if e.Claim? && e.result == Confirmed then 1 else 0
    ensures EndedSince(log + [e]) == if e.Began? then 0 else EndedSince(log) + if e.Freed? then e.count else 0
  {
    assert (log + [e])[..|log|] == log;
  }

  lemma LaterKeepsDiscipline(cfg: Config, w: Worker, elapsed: Duration, released: nat, budget: int)
    requires Within(cfg, w, budget)
    ensures Within(cfg, LaterInPass(w, elapsed, released), budget)
  {
    var e := Freed(w.active - Less(w.active, released));
    CountsExtend(w.log, e);
    LogExtends(cfg, w.log, e);
    hide CapKept, Unseen, BudgetLeft, EndedSince;
  }

  lemma ClaimKeepsDiscipline(cfg: Config, w: Worker, job: OfferedJob, result: ClaimResult, budget: int)
    requires Within(cfg, w, budget) && budget > 0
    ensures Within(cfg, Claimed(w, job, result), if result == Confirmed then budget - 1 else budget)
  {
    var e := Claimed(w, job, result).log[|w.log|];
    CountsExtend(w.log, e);
    LogExtends(cfg, w.log, e);
    hide CapKept, Unseen, BudgetLeft, EndedSince;
  }

  lemma AbandonKeepsDiscipline(cfg: Config, w: Worker, budget: int)
    requires Within(cfg, w, budget)
    ensures Between(cfg, Abandon(w, cfg))
  {
    LogExtends(cfg, w.log, Abandoned(w.now));
  }

  lemma {:induction false} OffersKeepDiscipline(cfg: Config, w: Worker, passNow: real, budget: int, offers: seq<Offer>, end: Worker)
    requires cfg.retry.Valid() && Within(cfg, w, budget) && Offers(cfg, w, passNow, budget, offers, end)
    ensures Between(cfg, end)
    decreases |offers|
  {
    if offers != [] {
      var o := offers[0];
      var here := LaterInPass(w, o.elapsed, o.released);
      LaterKeepsDiscipline(cfg, w, o.elapsed, o.released, budget);
      hide Within, Between, Executes;
      if !Matches(cfg, o.job, passNow) {
        OffersKeepDiscipline(cfg, here, passNow, budget, offers[1..], end);
      } else if budget > 0 && o.preflight {
        ClaimKeepsDiscipline(cfg, here, o.job, o.claim, budget);
        OfferClaimed(cfg, here, passNow, budget, offers, end);
      } else {
        WithinIsBetween(cfg, here, budget);
      }
    } else {
      WithinIsBetween(cfg, w, budget);
    }
  }

  lemma WithinIsBetween(cfg: Config, w: Worker, budget: int)
    requires Within(cfg, w, budget)
    ensures Between(cfg, w)
  {
  }

  lemma LaterKeepsWithin(cfg: Config, w: Worker, budget: int, finished: real)
    requires Within(cfg, w, budget) && w.now <= finished
    ensures Within(cfg, w.(now := finished), budget)
  {
  }

  lemma {:induction false} OfferClaimed(cfg: Config, here: Worker, passNow: real, budget: int, offers: seq<Offer>, end: Worker)
    requires cfg.retry.Valid() && offers != [] && budget > 0
    requires var o := offers[0];
             && Within(cfg, Claimed(here, o.job, o.claim), if o.claim == Confirmed then budget - 1 else budget)
             && if o.claim != Confirmed then Offers(cfg, Claimed(here, o.job, o.claim), passNow, budget, offers[1..], end)
                else exists outcome, submits, finished ::
                       && Executes(o.tries, cfg.retry, here.now, o.claimed, outcome, submits, finished)
                       && if outcome.submitted then Offers(cfg, Claimed(here, o.job, o.claim).(now := finished), passNow, budget - 1, offers[1..], end)
                          else end == Abandon(Claimed(here, o.job, o.claim).(now := finished), cfg)
    ensures Between(cfg, end)
    decreases |offers|, 0
  {
    hide Within, Between, Executes;
    var o := offers[0];
    var claimed := Claimed(here, o.job, o.claim);
    if o.claim != Confirmed {
      OffersKeepDiscipline(cfg, claimed, passNow, budget, offers[1..], end);
    } else {
      var outcome, submits, finished :|
        && Executes(o.tries, cfg.retry, here.now, o.claimed, outcome, submits, finished)
        && if outcome.submitted then Offers(cfg, claimed.(now := finished), passNow, budget - 1, offers[1..], end)
           else end == Abandon(claimed.(now := finished), cfg);
      ExecutionAdvances(o.tries, cfg.retry, here.now, o.claimed, outcome, submits, finished);
      LaterKeepsWithin(cfg, claimed, budget - 1, finished);
      if outcome.submitted {
        OffersKeepDiscipline(cfg, claimed.(now := finished), passNow, budget - 1, offers[1..], end);
      } else {
        AbandonKeepsDiscipline(cfg, claimed.(now := finished), budget - 1);
      }
    }
  }

  lemma {:induction false} StartAdvances(tries: nat -> Try, retry: Retry, clock: real, k: nat)
    requires retry.Valid()
    ensures clock <= Start(tries, retry, clock, k) <= Failed(tries, retry, clock, k)
  {
    if k > 0 {
      StartAdvances(tries, retry, clock, k - 1);
      BackoffBounds(k, retry);
    }
  }

  lemma ExecutionAdvances(tries: nat -> Try, retry: Retry, clock: real, job: Option<ClaimedJob>, outcome: Outcome, submits: nat, finished: real)
    requires retry.Valid() && Executes(tries, retry, clock, job, outcome, submits, finished)
    ensures clock <= finished
  {
    if outcome.attempts > 0 {
      StartAdvances(tries, retry, clock, outcome.attempts - 1);
    }
  }

  lemma PassKeepsDiscipline(cfg: Config, w: Worker, pass: Pass, end: Worker)
    requires cfg.retry.Valid() && Between(cfg, w) && Passes(cfg, w, pass, end)
    ensures Between(cfg, end)
  {
    var here := Later(w, pass.idle, pass.released);
    assert Between(cfg, here);
    if here.openUntil <= here.now && here.active < cfg.maxClaims {
      var e := Began(cfg.maxClaims - here.active);
      var began := here.(log := here.log + [e]);
      LogExtends(cfg, here.log, e);
      CountsExtend(here.log, e);
      assert Within(cfg, began, cfg.maxClaims - here.active);
      hide Between, Within;
      OffersKeepDiscipline(cfg, began, here.now, cfg.maxClaims - here.active, pass.offers, end);
    }
  }

  /** Over any run of passes: the active claims follow the account of `CapKept`, nothing follows an
      abandonment in its pass, and no claim is made before the cooldown after every earlier abandonment. */
  lemma {:induction false} RunDisciplined(cfg: Config, ws: seq<Worker>, passes: seq<Pass>, k: nat)
    requires cfg.retry.Valid() && Run(cfg, ws, passes) && k < |ws| && ws[0].log == []
    ensures Disciplined(cfg, ws[k].log) && BreakerCovers(cfg, ws[k])
  {
    if k > 0 {
      RunDisciplined(cfg, ws, passes, k - 1);
      assert Passes(cfg, ws[k - 1], passes[k - 1], ws[k]);
      hide Disciplined, BreakerCovers, Passes;
      assert Between(cfg, ws[k - 1]);
      PassKeepsDiscipline(cfg, ws[k - 1], passes[k - 1], ws[k]);
    }
  }

  /** Claiming can raise the active claims above the cap, and exactly so: a landed claim does if and only if
      the claims that landed unseen before it in its pass are at least the budget left and the claims that
      ended since the budget was read.  It never does by more than those unseen claims, and so never in a
      pass that has seen every claim land. */
  lemma ClaimPassesTheCap(cfg: Config, ws: seq<Worker>, passes: seq<Pass>, k: nat, e: nat)
    requires cfg.retry.Valid() && Run(cfg, ws, passes) && k < |ws| && ws[0].log == []
    requires e < |ws[k].log| && ws[k].log[e].Claim? && Landed(ws[k].log[e].result)
    ensures var before, active := ws[k].log[..e], ws[k].log[e].active;
            && (active > cfg.maxClaims <==> Unseen(before) >= BudgetLeft(before) + EndedSince(before))
            && active <= cfg.maxClaims + Unseen(before)
  {
    RunDisciplined(cfg, ws, passes, k);
    hide Run, Unseen, BudgetLeft, EndedSince;
  }

  /** An account that any worker of the configuration would claim at time zero, and whose claim lands unseen. */
  function UnseenOffer(cfg: Config, tries: nat -> Try): Offer {
    Offer(OfferedJob(true, true, 0.0, true, true, true, true, cfg.role, cfg.tier), 0.0, 0, true, ErrorLanded, None, tries)
  }

  lemma UnseenOfferClaimed(cfg: Config, w: Worker, tries: nat -> Try, rest: seq<Offer>, end: Worker)
    requires Offers(cfg, Claimed(LaterInPass(w, 0.0, 0), UnseenOffer(cfg, tries).job, ErrorLanded), 0.0, 1, rest, end)
    ensures Offers(cfg, w, 0.0, 1, [UnseenOffer(cfg, tries)] + rest, end)
  {
    var offers := [UnseenOffer(cfg, tries)] + rest;
    assert offers[0] == UnseenOffer(cfg, tries) && offers[1..] == rest;
    assert Matches(cfg, offers[0].job, 0.0);
    hide Matches, Executes;
  }

  /** The excess is reached: with any cap above zero, one claim that lands unseen on the last of the budget
      lets the next claim of the pass, seen or not, go one above the cap. */
  lemma UnseenClaimPassesTheCap(cfg: Config, tries: nat -> Try) returns (w: Worker, pass: Pass, end: Worker)
    requires cfg.retry.Valid() && cfg.maxClaims >= 1
    ensures w.log == [] && w.active < cfg.maxClaims && Passes(cfg, w, pass, end)
    ensures var n := |end.log|;
            && n > 0 && end.log[n - 1].Claim? && end.log[n - 1].active == cfg.maxClaims + 1
            && end.log[n - 1].active == cfg.maxClaims + Unseen(end.log[..n - 1])
  {
    var offer := UnseenOffer(cfg, tries);
    w := Worker(0.0, 0.0, cfg.maxClaims - 1, []);
    pass := Pass(0.0, 0, [offer] + [offer]);
    var began := w.(log := [Began(1)]);
    var once := Claimed(LaterInPass(began, 0.0, 0), offer.job, ErrorLanded);
    end := Claimed(LaterInPass(once, 0.0, 0), offer.job, ErrorLanded);
    assert Offers(cfg, end, 0.0, 1, [], end);
    UnseenOfferClaimed(cfg, once, tries, [], end);
    assert [offer] + [] == [offer];
    UnseenOfferClaimed(cfg, began, tries, [offer], end);
    hide Offers;
    assert Later(w, 0.0, 0) == w && w.log + [Began(1)] == [Began(1)];
    UnseenOnce(began.log, once.log, end.log);
  }

  lemma UnseenOnce(began: seq<Event>, once: seq<Event>, end: seq<Event>)
    requires began == [Began(1)] && |once| == 3 && once[..2] == began + [Freed(0)]
    requires once[2].Claim? && once[2].result == ErrorLanded
    requires |end| == 5 && end[..4] == once + [Freed(0)]
    ensures Unseen(end[..4]) == 1
  {
    assert once == once[..2] + [once[2]];
    CountsExtend(began, Freed(0));
    CountsExtend(once[..2], once[2]);
    CountsExtend(once, Freed(0));
  }
}
