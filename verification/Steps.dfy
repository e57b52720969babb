/**
 * The interleaved steps of a transaction, run without interruption, are one turn of
 * `commit`'s retry loop: what is proved of the steps holds of the loop.
 */
module Steps {
  import opened Options
  import opened Catalogs
  import opened Errors
  import opened Intents
  import opened Transactions
  import opened Protocol

  /** Apply the intents one step at a time, until all are applied or one fails. */
  function ApplySteps(w: World, c: Client): Acted
    decreases if c.pc.Applying? then |c.tx.intents| - c.pc.next else 0
  {
    if c.pc.Applying? && c.pc.next < |c.tx.intents| then
      var a := DoApply(w, c);
      ApplySteps(a.world, a.client)
    else Acted(w, c, false)
  }

  lemma {:induction false} StepsAreApplyAll(w: World, c: Client)
    requires c.pc.Applying? && c.pc.next <= |c.tx.intents|
    ensures var r, a := ApplySteps(w, c), ApplyAll(w.store, c.tx.catalog, c.tx.intents[c.pc.next..]);
            && r.world == w.(store := a.store) && r.client.tx == c.tx.(catalog := a.catalog) && !r.published
            && r.client.pc == if a.error.None? then c.pc.(next := |c.tx.intents|) else Idle
    decreases |c.tx.intents| - c.pc.next
  {
    hide Apply;
    if c.pc.next < |c.tx.intents| {
      var rest := c.tx.intents[c.pc.next..];
      assert rest[0] == c.tx.intents[c.pc.next] && rest[1..] == c.tx.intents[c.pc.next + 1..];
      if Apply(w.store, c.tx.catalog, rest[0]).error.None? {
        StepsAreApplyAll(DoApply(w, c).world, DoApply(w, c).client);
      }
    }
  }

  /** The transaction after a conflict, its tip read, and its recovery. */
  function Recovering(w: World, c: Client, solvable: bool): Client
    requires Shape(w, c) && c.pc.Conflicted?
  {
    DoFinish(w, c.(pc := Adopting(c.pc.attempt, |w.history| - 1)), solvable)
  }

  /** How a turn of the loop ends, in terms of the steps taken after the intents are applied. */
  ghost predicate SameTurn(t: Turned, landed: World, c: Client, solvable: bool)
    requires GoodStore(landed.store) && landed.history != [] && c.tx.session.base < |landed.history| && c.pc.Applying?
  {
    var p := DoPublish(landed, c);
    if p.client.pc.Done? then t == Turned(p.world, p.client.tx, Some(Returned(p.client.pc.id)))
    else if p.client.pc.Conflicted? then
      var f := Recovering(p.world, p.client, solvable);
      && t.world == p.world && t.tx == f.tx
      && (if t.outcome.None? then f.pc == Applying(c.pc.attempt + 1, 0) else t.outcome.value.Raised? && f.pc.Idle?)
    else p.client.pc.Idle? && t.world == p.world && t.tx == p.client.tx && t.outcome.Some? && t.outcome.value.Raised?
  }

  lemma PublishesAlike(landed: World, c: Client, attempt: nat, solvable: bool, t: Turned)
    requires GoodStore(landed.store) && landed.history != [] && c.tx.session.base < |landed.history|
    requires c.pc.Applying? && c.pc.attempt == attempt
    requires t == match TryPublish(landed.history, c.tx, attempt)
                  case Published(history) => Turned(landed.(history := history), c.tx, Some(Returned(|history| - 1)))
                  case Refused(error) => Turned(landed, c.tx, Some(Raised(error)))
                  case Conflicted =>
                    if attempt == c.tx.maxRetries then Turned(landed, c.tx, Some(Raised(BranchMoved)))
                    else
                      var r := Recover(landed, c.tx, solvable);
                      Turned(landed, r.tx, if r.error.Some? then Some(Raised(r.error.value)) else None)
    ensures SameTurn(t, landed, c, solvable)
  {
    hide ValidateAll;
  }

  /**
   * One turn of the loop in `commit` is: apply each intent; let others land; swap; and on
   * a conflict read the tip and recover from it.
   */
  lemma TurnIsSteps(w: World, c: Client, env: Env)
    requires Ready(w, c.tx) && ForeignTo(env, c.tx.catalog.writer) && c.pc.Applying? && c.pc.next == 0
    ensures var t, r := Turn(w, c.tx, c.pc.attempt, env), ApplySteps(w, c);
            if r.client.pc.Idle? then
              t.world == r.world && t.tx == r.client.tx && t.outcome.Some? && t.outcome.value.Raised?
            else
              && r.world.history != [] && r.client.pc.Applying?
              && var landed := LandAll(r.world, ArrivalsAt(env, c.pc.attempt));
              && GoodStore(landed.store) && r.client.tx.session.base < |landed.history|
              && SameTurn(t, landed, r.client, SolvableAt(env, c.pc.attempt))
  {
    hide ApplyAll;
    hide SameTurn;
    StepsAreApplyAll(w, c);
    assert c.tx.intents[0..] == c.tx.intents;
    AppliedReady(w, c.tx, c.pc.attempt, env);
    var r := ApplySteps(w, c);
    if !r.client.pc.Idle? {
      var landed := LandAll(r.world, ArrivalsAt(env, c.pc.attempt));
      PublishesAlike(landed, r.client, c.pc.attempt, SolvableAt(env, c.pc.attempt), Turn(w, c.tx, c.pc.attempt, env));
    }
  }

  // -- the whole call ---------------------------------------------------------------------------

  /** One turn as steps: apply, let others land, swap, and on a conflict read the tip and recover. */
  ghost function TurnSteps(w: World, c: Client, env: Env): Acted
    requires Ready(w, c.tx) && ForeignTo(env, c.tx.catalog.writer) && c.pc.Applying? && c.pc.next == 0
  {
    TurnIsSteps(w, c, env);
    var r := ApplySteps(w, c);
    if r.client.pc.Idle? then r
    else
      var p := DoPublish(LandAll(r.world, ArrivalsAt(env, c.pc.attempt)), r.client);
      if p.client.pc.Conflicted? then Acted(p.world, Recovering(p.world, p.client, SolvableAt(env, c.pc.attempt)), false) else p
  }

  lemma TurnStepsMatch(w: World, c: Client, env: Env)
    requires Ready(w, c.tx) && ForeignTo(env, c.tx.catalog.writer) && c.pc.Applying? && c.pc.next == 0
    ensures var t, r := Turn(w, c.tx, c.pc.attempt, env), TurnSteps(w, c, env);
            && t.world == r.world && t.tx == r.client.tx
            && (match t.outcome
                case None => r.client.pc == Applying(c.pc.attempt + 1, 0)
                case Some(Returned(id)) => r.client.pc == Done(id)
                case Some(Raised(_)) => r.client.pc.Idle?)
  {
    hide Turn;
    hide ApplySteps;
    hide ApplyAll;
    hide DoPublish;
    hide Recovering;
    hide LandAll;
    hide Ready;
    TurnIsSteps(w, c, env);
    StepsAreApplyAll(w, c);
  }

  /** Turn after turn, until the transaction is done or given up. */
  ghost function CallSteps(w: World, c: Client, env: Env): Acted
    requires Ready(w, c.tx) && ForeignTo(env, c.tx.catalog.writer) && c.pc.Applying? && c.pc.next == 0
    requires c.pc.attempt <= c.tx.maxRetries
    decreases c.tx.maxRetries - c.pc.attempt
  {
    var t := Turn(w, c.tx, c.pc.attempt, env);
    var r := TurnSteps(w, c, env);
    TurnStepsMatch(w, c, env);
    TurnReady(w, c.tx, c.pc.attempt, env);
    TurnAgain(w, c.tx, c.pc.attempt, env);
    if t.outcome.Some? then r else CallSteps(r.world, r.client, env)
  }

  lemma TurnAgain(w: World, tx: Tx, attempt: nat, env: Env)
    requires Ready(w, tx) && ForeignTo(env, tx.catalog.writer)
    ensures Turn(w, tx, attempt, env).outcome.None? ==> attempt != tx.maxRetries
  {
    hide ApplyAll;
    hide Recover;
    hide TryPublish;
  }

  lemma {:induction false} AttemptsAreSteps(w: World, c: Client, env: Env)
    requires Ready(w, c.tx) && ForeignTo(env, c.tx.catalog.writer) && c.pc.Applying? && c.pc.next == 0
    requires c.pc.attempt <= c.tx.maxRetries
    ensures var run, r := Attempts(w, c.tx, c.pc.attempt, env), CallSteps(w, c, env);
            && run.world == r.world && run.tx == r.client.tx
            && r.client.pc == if run.outcome.Returned? then Done(run.outcome.id) else Idle
    decreases c.tx.maxRetries - c.pc.attempt
  {
    hide Turn;
    hide TurnSteps;
    var r := TurnSteps(w, c, env);
    TurnStepsMatch(w, c, env);
    TurnReady(w, c.tx, c.pc.attempt, env);
    TurnAgain(w, c.tx, c.pc.attempt, env);
    if r.client.pc.Applying? {
      AttemptsAreSteps(r.world, r.client, env);
    }
  }

  /**
   * A whole `commit` is the protocol's steps of that transaction, in order, with the others'
   * commits landing before each swap: same world, same transaction, and it is done if and
   * only if `commit` returns.
   */
  lemma CommitIsSteps(w: World, c: Client, env: Env)
    requires Ready(w, c.tx) && ForeignTo(env, c.tx.catalog.writer) && c.pc.Idle?
    ensures var run, start := Committed(w, c.tx, env), DoStart(c);
            if c.tx.maxRetries < 0 then run.world == w && run.tx == start.tx && start.pc.Idle? && run.outcome.Raised?
            else
              && start.pc == Applying(0, 0)
              && var r := CallSteps(w, start, env);
              && run.world == r.world && run.tx == r.client.tx
              && r.client.pc == if run.outcome.Returned? then Done(run.outcome.id) else Idle
  {
    hide Turn;
    hide CallSteps;
    if c.tx.maxRetries >= 0 {
      AttemptsAreSteps(w, DoStart(c), env);
    }
  }
}
