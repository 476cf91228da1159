// The gateway as a whole: requests take their room from the budget, follow the protocol while they
// have it, and give it back when they are over.

module Service {
  import opened World
  import opened Protocol
  import Budget

  datatype Service = Service(sys: System, budget: Budget.State)

  function LifeOf(v: Service, t: nat): Budget.Stage
    requires t < |v.budget.requests|
  {
    v.budget.requests[t]
  }

  /** A request arrives, loads the counter, swaps it, or, once it is over, releases its room. */
  predicate Budgets(v: Service, v': Service, a: Budget.Step) {
    && Budget.Enabled(v.budget, a) && (a.Release? ==> Over(After(Ready, LogOf(v.sys, a.t))))
    && v' == v.(budget := Budget.Next(v.budget, a))
  }

  /** A request that has its room makes an event, or one that was refused it answers so. */
  ghost predicate Handles(v: Service, v': Service, t: nat, e: Happening) {
    && t < |v.budget.requests| && (LifeOf(v, t).Admitted? || (LifeOf(v, t).Refused? && e == Refused(503)))
    && Acts(v.sys, v'.sys, t, e) && v'.budget == v.budget
  }

  ghost predicate Steps(v: Service, v': Service) {
    || (exists a :: Budgets(v, v', a))
    || (exists t, e :: Handles(v, v', t, e))
    || (exists a :: Turns(v.sys, v'.sys, a) && v'.budget == v.budget)
  }

  /** What a request has done at this stage of its life. */
  predicate Fitting(r: Budget.Stage, log: Log) {
    match r
    case Asking(_) => log == []
    case Loaded(_, _) => log == []
    case Admitted(_) => true
    case Refused(_, _) => After(Ready, log).Ready? || After(Ready, log).Answered?
    case Released => Over(After(Ready, log))
  }

  /** Books and budget balance, and every request has done only what its life allows. */
  ghost predicate Balanced(v: Service) {
    && InStep(v.sys) && Budget.Sound(v.budget)
    && (forall t: nat | t >= |v.budget.requests| :: LogOf(v.sys, t) == [])
    && (forall t: nat | t < |v.budget.requests| :: Fitting(LifeOf(v, t), LogOf(v.sys, t)))
  }

  lemma BudgetsBalanced(v: Service, v': Service, a: Budget.Step)
    requires Balanced(v) && Budgets(v, v', a)
    ensures Balanced(v')
  {
    hide InStep, Budget.Sound, After;
    Budget.StepSound(v.budget, a);
    forall t: nat | t < |v'.budget.requests| ensures Fitting(LifeOf(v', t), LogOf(v'.sys, t)) {
      AfterNothing();
      if t < |v.budget.requests| {
        Budget.StepFollows(v.budget, a, t);
      }
    }
  }

  lemma HandlesBalanced(v: Service, v': Service, t: nat, e: Happening)
    requires Balanced(v) && Handles(v, v', t, e)
    ensures Balanced(v')
  {
    hide InStep, Budget.Sound, After, Makes, Moves;
    ActsMoves(v.sys, v'.sys, t, e);
    MovesInStep(v.sys, v'.sys);
    forall u: nat | u >= |v'.budget.requests| ensures LogOf(v'.sys, u) == [] {
      assert LogOf(v.sys, u) == [];
    }
    forall u: nat | u < |v'.budget.requests| ensures Fitting(LifeOf(v', u), LogOf(v'.sys, u)) {
      assert Fitting(LifeOf(v, u), LogOf(v.sys, u)) && LifeOf(v', u) == LifeOf(v, u);
      if u == t && LifeOf(v, t).Refused? {
        AfterSnoc(Ready, LogOf(v.sys, t), e);
        ActsGood(v.sys, v'.sys, t, e);
      }
    }
  }

  lemma ActsMoves(s: System, s': System, t: nat, e: Happening)
    requires Acts(s, s', t, e)
    ensures Moves(s, s')
  {
  }

  lemma ActsGood(s: System, s': System, t: nat, e: Happening)
    requires Acts(s, s', t, e)
    ensures !Step(After(Ready, LogOf(s, t)), e).Broken?
  {
    hide Step, After;
  }

  lemma StepsBalanced(v: Service, v': Service)
    requires Balanced(v) && Steps(v, v')
    ensures Balanced(v')
  {
    hide Balanced, Budgets, Handles, Turns;
    if a :| Budgets(v, v', a) {
      BudgetsBalanced(v, v', a);
    } else if t, e :| Handles(v, v', t, e) {
      HandlesBalanced(v, v', t, e);
    } else {
      var a :| Turns(v.sys, v'.sys, a) && v'.budget == v.budget;
      TurnsBalanced(v, v', a);
    }
  }

  lemma TurnsBalanced(v: Service, v': Service, a: Action)
    requires Balanced(v) && Turns(v.sys, v'.sys, a) && v'.budget == v.budget
    ensures Balanced(v')
  {
    hide InStep, Budget.Sound, After, Enabled, Next;
    assert Moves(v.sys, v'.sys);
    MovesInStep(v.sys, v'.sys);
    forall u: nat | u >= |v'.budget.requests| ensures LogOf(v'.sys, u) == [] {
      assert LogOf(v.sys, u) == [];
    }
    forall u: nat | u < |v'.budget.requests| ensures Fitting(LifeOf(v', u), LogOf(v'.sys, u)) {
      assert Fitting(LifeOf(v, u), LogOf(v.sys, u)) && LifeOf(v', u) == LifeOf(v, u);
    }
  }

  predicate Ended(r: Budget.Stage) {
    r.Refused? || r.Released?
  }

  predicate AllEnded(v: Service) {
    forall t: nat | t < |v.budget.requests| :: Ended(LifeOf(v, t))
  }

  /** However requests take and release their room, follow the protocol, and interleave with one
      another, the clock and reloads: what is held is always the rooms of the requests admitted and
      not over, within the budget; and once every request has ended, nothing is held of the budget
      or of any key. */
  lemma {:induction false} RunBalanced(vs: seq<Service>)
    requires vs != [] && Balanced(vs[0]) && forall i | 0 <= i < |vs| - 1 :: Steps(vs[i], vs[i + 1])
    ensures forall i | 0 <= i < |vs| :: Balanced(vs[i])
    ensures var last := vs[|vs| - 1];
            AllEnded(last) ==>
              last.budget.held == 0 && forall k | k in last.sys.w.pool.cells :: last.sys.w.pool.cells[k].live == 0
  {
    hide Balanced, Steps;
    for n := 0 to |vs| - 1
      invariant forall i | 0 <= i <= n :: Balanced(vs[i])
    {
      StepsBalanced(vs[n], vs[n + 1]);
    }
    if AllEnded(vs[|vs| - 1]) {
      EndsEmpty(vs[|vs| - 1]);
    }
  }

  lemma EndsEmpty(v: Service)
    requires Balanced(v) && AllEnded(v)
    ensures v.budget.held == 0 && forall k | k in v.sys.w.pool.cells :: v.sys.w.pool.cells[k].live == 0
  {
    hide After, Conserves;
    forall i: nat | i < |v.budget.requests| ensures Ended(v.budget.requests[i]) {
      assert Ended(LifeOf(v, i));
    }
    NoneReserved(v.budget.requests);
    AfterNothing();
    forall t | t in v.sys.w.threads ensures !v.sys.w.threads[t].Holding? {
      assert PhaseOf(v.sys.w, t) == PhaseAt(After(Ready, LogOf(v.sys, t)));
      if t < |v.budget.requests| {
        assert Fitting(LifeOf(v, t), LogOf(v.sys, t)) && Ended(LifeOf(v, t));
      }
    }
    NothingLeftHeld(v.sys.w);
  }

  lemma {:induction false} NoneReserved(rs: seq<Budget.Stage>)
    requires forall i: nat | i < |rs| :: Ended(rs[i])
    ensures Budget.Reserved(rs) == 0
  {
    if rs != [] {
      NoneReserved(rs[..|rs| - 1]);
    }
  }
}
