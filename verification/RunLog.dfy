/** The log of a run: the steps it took, and that they make an execution of the protocol. */
module RunLog {
  import opened Storage
  import opened Protocol
  import opened Interleaving

  /** A step this job took, and the world it took it in. */
  datatype Event = Event(before: World, step: Step)

  /** The world this job's own last step left behind, after `i` of them. */
  ghost function LeftBehind(me: Actor, start: World, log: seq<Event>, i: nat): World
    requires i <= |log|
  {
    if i == 0 then start else Apply(me, log[i - 1].before, log[i - 1].step)
  }

  ghost predicate WereAllowed(me: Actor, log: seq<Event>) {
    forall i :: 0 <= i < |log| ==> Inv(log[i].before) && Allowed(me, log[i].before, log[i].step)
  }

  ghost predicate WereRelied(me: Actor, start: World, log: seq<Event>) {
    forall i :: 0 <= i < |log| ==> ReliedAt(me, start, log, i)
  }

  /** Each step was allowed where it was taken; in between, others did only what the job relies on. */
  ghost predicate Logged(me: Actor, start: World, log: seq<Event>, now: World) {
    WereAllowed(me, log) && WereRelied(me, start, log) && Rely(me, LeftBehind(me, start, log, |log|), now)
  }

  lemma SameRely(me: Actor, u: World, v: World, u': World, v': World)
    requires Rely(me, u, v) && u' == u && v' == v
    ensures Rely(me, u', v')
  {
  }

  ghost predicate ReliedAt(me: Actor, start: World, log: seq<Event>, i: nat)
    requires i < |log|
  {
    Rely(me, LeftBehind(me, start, log, i), log[i].before)
  }

  lemma StillReliedAt(me: Actor, start: World, log: seq<Event>, i: nat, log': seq<Event>)
    requires i < |log| && i < |log'| && log[..i + 1] == log'[..i + 1] && ReliedAt(me, start, log, i)
    ensures ReliedAt(me, start, log', i)
  {
    SameLog(me, start, log, i, log');
    SameRely(me, LeftBehind(me, start, log, i), log[i].before, LeftBehind(me, start, log', i), log'[i].before);
  }

  lemma SameLog(me: Actor, start: World, log: seq<Event>, i: nat, log': seq<Event>)
    requires i < |log| && i < |log'| && log[..i + 1] == log'[..i + 1]
    ensures log'[i] == log[i] && LeftBehind(me, start, log', i) == LeftBehind(me, start, log, i)
  {
    assert log'[i] == log'[..i + 1][i] && log[i] == log[..i + 1][i];
    if i > 0 {
      assert log'[i - 1] == log'[..i + 1][i - 1] && log[i - 1] == log[..i + 1][i - 1];
    }
  }

  lemma OneMoreRelied(me: Actor, start: World, log: seq<Event>, now: World, step: Step)
    requires WereRelied(me, start, log) && Rely(me, LeftBehind(me, start, log, |log|), now)
    ensures WereRelied(me, start, log + [Event(now, step)])
  {
    var log' := log + [Event(now, step)];
    SameRely(me, LeftBehind(me, start, log, |log|), now, LeftBehind(me, start, log', |log|), log'[|log|].before);
    forall i | 0 <= i < |log| ensures ReliedAt(me, start, log', i) {
      assert ReliedAt(me, start, log, i) && log[..i + 1] == log'[..i + 1];
      StillReliedAt(me, start, log, i, log');
    }
  }

  lemma OneMoreAllowed(me: Actor, log: seq<Event>, now: World, step: Step)
    requires WereAllowed(me, log) && Inv(now) && Allowed(me, now, step)
    ensures WereAllowed(me, log + [Event(now, step)])
  {
  }

  lemma LogStep(me: Actor, start: World, log: seq<Event>, now: World, step: Step)
    requires Logged(me, start, log, now) && Inv(now) && Allowed(me, now, step)
    ensures Logged(me, start, log + [Event(now, step)], Apply(me, now, step))
  {
    OneMoreAllowed(me, log, now, step);
    OneMoreRelied(me, start, log, now, step);
    RelyReflexive(me, Apply(me, now, step));
    var log' := log + [Event(now, step)];
    SameRely(me, Apply(me, now, step), Apply(me, now, step), LeftBehind(me, start, log', |log'|), Apply(me, now, step));
  }

  lemma LogInterference(me: Actor, start: World, log: seq<Event>, now: World, later: World)
    requires Logged(me, start, log, now) && Rely(me, now, later)
    ensures Logged(me, start, log, later)
  {
    RelyTransitive(me, LeftBehind(me, start, log, |log|), now, later);
  }

  // ---- A logged run is an execution of the protocol ----

  ghost function WorldsOf(me: Actor, start: World, log: seq<Event>): seq<World> {
    seq(|log| + 1, i requires 0 <= i <= |log| => LeftBehind(me, start, log, i))
  }

  ghost function MovesOf(log: seq<Event>): seq<Move> {
    seq(|log|, i requires 0 <= i < |log| => Move(0, log[i].step))
  }

  /** The steps a run took while no other job was at work form an execution of allowed steps, to where it stands. */
  lemma AloneRunIsExecution(me: Actor, start: World, log: seq<Event>, now: World)
    requires me.alone && Logged(me, start, log, now)
    ensures IsExecution([me], WorldsOf(me, start, log), MovesOf(log))
    ensures AllAllowed([me], WorldsOf(me, start, log), MovesOf(log))
    ensures WorldsOf(me, start, log)[0] == start && WorldsOf(me, start, log)[|log|] == now
  {
    forall i | 0 <= i < |log| ensures LeftBehind(me, start, log, i) == log[i].before {
      assert ReliedAt(me, start, log, i);
      AloneRelies(me, LeftBehind(me, start, log, i), log[i].before);
    }
    AloneRelies(me, LeftBehind(me, start, log, |log|), now);
    AreExecution(me, start, log);
  }

  lemma AloneRelies(me: Actor, u: World, v: World)
    requires me.alone && Rely(me, u, v)
    ensures v == u
  {
  }

  lemma WorldAfter(me: Actor, start: World, log: seq<Event>, i: nat)
    requires i < |log| && LeftBehind(me, start, log, i) == log[i].before
    ensures WorldsOf(me, start, log)[i] == log[i].before
    ensures WorldsOf(me, start, log)[i + 1] == Apply(me, log[i].before, log[i].step)
  {
    assert LeftBehind(me, start, log, i + 1) == Apply(me, log[i].before, log[i].step);
  }

  lemma AreExecution(me: Actor, start: World, log: seq<Event>)
    requires forall i :: 0 <= i < |log| ==> LeftBehind(me, start, log, i) == log[i].before
    requires forall i :: 0 <= i < |log| ==> Allowed(me, log[i].before, log[i].step)
    ensures IsExecution([me], WorldsOf(me, start, log), MovesOf(log))
    ensures AllAllowed([me], WorldsOf(me, start, log), MovesOf(log))
  {
    var worlds, moves := WorldsOf(me, start, log), MovesOf(log);
    forall i | 0 <= i < |log|
      ensures worlds[i] == log[i].before && worlds[i + 1] == Apply(me, log[i].before, log[i].step)
    {
      WorldAfter(me, start, log, i);
    }
    FitTogether(me, worlds, moves, log);
    AreAllowed(me, worlds, moves, log);
  }

  lemma FitTogether(me: Actor, worlds: seq<World>, moves: seq<Move>, log: seq<Event>)
    requires |moves| == |log| && |worlds| == |log| + 1 && forall i :: 0 <= i < |log| ==>
      moves[i] == Move(0, log[i].step)
    requires forall i :: 0 <= i < |log| ==>
      worlds[i] == log[i].before && worlds[i + 1] == Apply(me, log[i].before, log[i].step)
    ensures IsExecution([me], worlds, moves)
  {
    forall i | 0 <= i < |moves| ensures worlds[i + 1] == Apply([me][moves[i].who], worlds[i], moves[i].step) {
      var event := log[i];
      assert worlds[i] == event.before && moves[i].step == event.step;
    }
  }

  lemma AreAllowed(me: Actor, worlds: seq<World>, moves: seq<Move>, log: seq<Event>)
    requires IsExecution([me], worlds, moves) && |moves| == |log|
    requires forall i :: 0 <= i < |log| ==> worlds[i] == log[i].before && moves[i] == Move(0, log[i].step)
    requires forall i :: 0 <= i < |log| ==> Allowed(me, log[i].before, log[i].step)
    ensures AllAllowed([me], worlds, moves)
  {
  }

  /** A run stopped after any step is logged like a complete one, so it leaves a world the next run can start from. */
  lemma StoppedRunIsLogged(me: Actor, start: World, log: seq<Event>, now: World, i: nat)
    requires Logged(me, start, log, now) && Inv(start) && i <= |log|
    ensures Logged(me, start, log[..i], LeftBehind(me, start, log, i)) && Inv(LeftBehind(me, start, log, i))
  {
    var short := log[..i];
    forall k | 0 <= k < i ensures ReliedAt(me, start, short, k) {
      assert ReliedAt(me, start, log, k) && short[..k + 1] == log[..k + 1];
      StillReliedAt(me, start, log, k, short);
    }
    LeftBehindPrefix(me, start, log, i);
    if i > 0 {
      StepSafe(me, log[i - 1].before, log[i - 1].step);
    }
  }

  lemma LeftBehindPrefix(me: Actor, start: World, log: seq<Event>, i: nat)
    requires i <= |log|
    ensures LeftBehind(me, start, log[..i], i) == LeftBehind(me, start, log, i)
    ensures Rely(me, LeftBehind(me, start, log[..i], i), LeftBehind(me, start, log, i))
  {
    RelyReflexive(me, LeftBehind(me, start, log, i));
  }

  // ---- Runs one after another ----

  /** A run with no other job at work: in full, or stopped after any step. */
  datatype LoneRun = LoneRun(me: Actor, start: World, log: seq<Event>, end: World)

  ghost predicate IsLoneRun(run: LoneRun) {
    run.me.alone && Logged(run.me, run.start, run.log, run.end)
  }

  /** Each run starts from what the one before it left. */
  ghost predicate InTurn(runs: seq<LoneRun>) {
    && (forall k :: 0 <= k < |runs| ==> IsLoneRun(runs[k]))
    && (forall k :: 0 <= k < |runs| - 1 ==> runs[k].end == runs[k + 1].start)
  }

  /** An execution of allowed steps from `start` to `end`. */
  ghost predicate Leads(start: World, actors: seq<Actor>, worlds: seq<World>, moves: seq<Move>, end: World) {
    IsExecution(actors, worlds, moves) && AllAllowed(actors, worlds, moves) && worlds[0] == start
      && worlds[|moves|] == end
  }

  /** The moves of other actors, who stand behind `n` in a joint list. */
  function Shifted(moves: seq<Move>, n: nat): (r: seq<Move>)
    ensures |r| == |moves| && forall i :: 0 <= i < |moves| ==> r[i] == Move(moves[i].who + n, moves[i].step)
  {
    seq(|moves|, i requires 0 <= i < |moves| => Move(moves[i].who + n, moves[i].step))
  }

  ghost predicate StepAt(actors: seq<Actor>, worlds: seq<World>, moves: seq<Move>, i: nat) {
    && i < |moves| && i + 1 < |worlds| && moves[i].who < |actors|
    && worlds[i + 1] == Apply(actors[moves[i].who], worlds[i], moves[i].step)
    && Allowed(actors[moves[i].who], worlds[i], moves[i].step)
  }

  lemma SameStepAt(actors: seq<Actor>, worlds: seq<World>, moves: seq<Move>, i: nat,
                   actors': seq<Actor>, worlds': seq<World>, moves': seq<Move>, k: nat)
    requires StepAt(actors, worlds, moves, i) && k < |moves'| && k + 1 < |worlds'| && moves'[k].who < |actors'|
    requires worlds'[k] == worlds[i] && worlds'[k + 1] == worlds[i + 1]
    requires moves'[k].step == moves[i].step && actors'[moves'[k].who] == actors[moves[i].who]
    ensures StepAt(actors', worlds', moves', k)
  {
  }

  ghost predicate AreSteps(actors: seq<Actor>, worlds: seq<World>, moves: seq<Move>) {
    |worlds| == |moves| + 1 && forall i :: 0 <= i < |moves| ==> StepAt(actors, worlds, moves, i)
  }

  lemma StepsAreExecution(actors: seq<Actor>, worlds: seq<World>, moves: seq<Move>)
    requires AreSteps(actors, worlds, moves)
    ensures IsExecution(actors, worlds, moves) && AllAllowed(actors, worlds, moves)
  {
    forall i | 0 <= i < |moves|
      ensures moves[i].who < |actors| && worlds[i + 1] == Apply(actors[moves[i].who], worlds[i], moves[i].step)
      ensures Allowed(actors[moves[i].who], worlds[i], moves[i].step)
    {
      assert StepAt(actors, worlds, moves, i);
    }
  }

  lemma ExecutionIsSteps(actors: seq<Actor>, worlds: seq<World>, moves: seq<Move>)
    requires IsExecution(actors, worlds, moves) && AllAllowed(actors, worlds, moves)
    ensures AreSteps(actors, worlds, moves)
  {
  }

  lemma EarlierStep(actors: seq<Actor>, worlds: seq<World>, moves: seq<Move>,
                    all: seq<Actor>, ws: seq<World>, ms: seq<Move>, i: nat)
    requires AreSteps(actors, worlds, moves) && i < |moves| && actors <= all && moves <= ms && worlds <= ws
    ensures StepAt(all, ws, ms, i)
  {
    assert StepAt(actors, worlds, moves, i);
    SameStepAt(actors, worlds, moves, i, all, ws, ms, i);
  }

  lemma JoinedSteps(actors: seq<Actor>, worlds: seq<World>, moves: seq<Move>,
                    actors': seq<Actor>, worlds': seq<World>, moves': seq<Move>)
    requires AreSteps(actors, worlds, moves) && AreSteps(actors', worlds', moves') && worlds[|moves|] == worlds'[0]
    ensures AreSteps(actors + actors', worlds + worlds'[1..], moves + Shifted(moves', |actors|))
  {
    var all, ws, ms, n := actors + actors', worlds + worlds'[1..], moves + Shifted(moves', |actors|), |moves|;
    JoinedWorlds(worlds, worlds', n);
    forall i | 0 <= i < n ensures StepAt(all, ws, ms, i) {
      EarlierStep(actors, worlds, moves, all, ws, ms, i);
    }
    forall i | n <= i < |ms| ensures StepAt(all, ws, ms, i) {
      assert StepAt(actors', worlds', moves', i - n);
      assert ms[i] == Move(moves'[i - n].who + |actors|, moves'[i - n].step);
      assert all[ms[i].who] == actors'[moves'[i - n].who];
      SameStepAt(actors', worlds', moves', i - n, all, ws, ms, i);
    }
  }

  /** One execution after another. */
  lemma OneAfterAnother(u: World, actors: seq<Actor>, worlds: seq<World>, moves: seq<Move>, v: World,
                        actors': seq<Actor>, worlds': seq<World>, moves': seq<Move>, w: World)
    requires Leads(u, actors, worlds, moves, v) && Leads(v, actors', worlds', moves', w)
    ensures Leads(u, actors + actors', worlds + worlds'[1..], moves + Shifted(moves', |actors|), w)
  {
    ExecutionIsSteps(actors, worlds, moves);
    ExecutionIsSteps(actors', worlds', moves');
    JoinedSteps(actors, worlds, moves, actors', worlds', moves');
    StepsAreExecution(actors + actors', worlds + worlds'[1..], moves + Shifted(moves', |actors|));
    JoinedWorlds(worlds, worlds', |moves|);
  }

  lemma JoinedWorlds(worlds: seq<World>, worlds': seq<World>, n: nat)
    requires |worlds| == n + 1 && worlds' != [] && worlds[n] == worlds'[0]
    ensures forall i :: 0 <= i <= n ==> (worlds + worlds'[1..])[i] == worlds[i]
    ensures forall i :: n <= i < n + |worlds'| ==> (worlds + worlds'[1..])[i] == worlds'[i - n]
  {
  }

  /** Runs in turn, each in full or stopped at any step, string together to one execution of allowed steps. */
  lemma {:induction false} RunsAreExecution(runs: seq<LoneRun>)
    returns (actors: seq<Actor>, worlds: seq<World>, moves: seq<Move>)
    requires runs != [] && InTurn(runs)
    ensures Leads(runs[0].start, actors, worlds, moves, runs[|runs| - 1].end)
  {
    var last := runs[|runs| - 1];
    AloneRunIsExecution(last.me, last.start, last.log, last.end);
    actors, worlds, moves := [last.me], WorldsOf(last.me, last.start, last.log), MovesOf(last.log);
    if |runs| > 1 {
      var before := runs[..|runs| - 1];
      assert before[|before| - 1].end == last.start;
      var actors0, worlds0, moves0 := RunsAreExecution(before);
      OneAfterAnother(runs[0].start, actors0, worlds0, moves0, last.start, actors, worlds, moves, last.end);
      actors, worlds, moves := actors0 + actors, worlds0 + worlds[1..], moves0 + Shifted(moves, |actors0|);
    }
  }

  ghost predicate CompleteSomewhere(w: World, sid: string) {
    exists place :: Complete(w.store, place, sid)
  }

  /**
   Over every sequence of runs, each in full or stopped at any step, a snapshot complete somewhere at the start
   is complete somewhere at the end unless retention chose it, and one off-site or pending is so at the end.
   */
  lemma RunsLoseNothing(runs: seq<LoneRun>, sid: string)
    requires runs != [] && InTurn(runs) && Inv(runs[0].start) && !WasPruned(runs[|runs| - 1].end, sid)
    ensures Inv(runs[|runs| - 1].end)
    ensures CompleteSomewhere(runs[0].start, sid) ==> CompleteSomewhere(runs[|runs| - 1].end, sid)
    ensures Tracked(runs[0].start, sid) ==>
      Offsite(runs[|runs| - 1].end, sid) || MarkedFor(runs[|runs| - 1].end, sid).Some?
  {
    var actors, worlds, moves := RunsAreExecution(runs);
    AllowedKeepsInv(actors, worlds, moves, |moves|);
    NothingIsLost(actors, worlds, moves, 0, |moves|, sid);
  }

  // ---- Runs side by side ----

  /** The steps of the job at `p` among the first `n` moves, with the worlds it took them in. */
  ghost function LogOf(p: nat, worlds: seq<World>, moves: seq<Move>, n: nat): seq<Event>
    requires n <= |moves| && |worlds| == |moves| + 1
  {
    if n == 0 then []
    else if moves[n - 1].who != p then LogOf(p, worlds, moves, n - 1)
    else LogOf(p, worlds, moves, n - 1) + [Event(worlds[n - 1], moves[n - 1].step)]
  }

  /** What each job did in an interleaving is, from where it stands, the log of a run beside others. */
  lemma {:induction false} ViewIsLogged(actors: seq<Actor>, worlds: seq<World>, moves: seq<Move>, p: nat, n: nat)
    requires IsExecution(actors, worlds, moves) && AllSideBySide(actors) && Inv(worlds[0])
    requires EachKeepsToItsSteps(actors, worlds, moves) && p < |actors| && n <= |moves|
    ensures Logged(actors[p], worlds[0], LogOf(p, worlds, moves, n), worlds[n])
    decreases n
  {
    if n == 0 {
      RelyReflexive(actors[p], worlds[0]);
      SameRely(actors[p], worlds[0], worlds[0], LeftBehind(actors[p], worlds[0], [], 0), worlds[0]);
    } else {
      ViewIsLogged(actors, worlds, moves, p, n - 1);
      InterleavingKeepsInv(actors, worlds, moves, |moves|);
      OneMoreInView(actors, p, worlds[0], LogOf(p, worlds, moves, n - 1), worlds[n - 1], moves[n - 1]);
    }
  }

  lemma OneMoreInView(actors: seq<Actor>, p: nat, start: World, log: seq<Event>, w: World, move: Move)
    requires AllSideBySide(actors) && p < |actors| && move.who < |actors|
    requires Inv(w) && Logged(actors[p], start, log, w) && Allowed(actors[move.who], w, move.step)
    ensures move.who == p ==> Logged(actors[p], start, log + [Event(w, move.step)], Apply(actors[p], w, move.step))
    ensures move.who != p ==> Logged(actors[p], start, log, Apply(actors[move.who], w, move.step))
  {
    if move.who == p {
      LogStep(actors[p], start, log, w, move.step);
    } else {
      StepIsRelied(actors[p], actors[move.who], w, move.step);
      LogInterference(actors[p], start, log, w, Apply(actors[move.who], w, move.step));
    }
  }

  /** As long as a job is undisturbed, what it did is the log of a run. */
  ghost predicate EachIsLogged(actors: seq<Actor>, worlds: seq<World>, moves: seq<Move>)
    requires IsExecution(actors, worlds, moves)
  {
    forall i :: 0 <= i < |moves| ==>
      (Undisturbed(actors, worlds, moves, i) ==>
        Logged(actors[moves[i].who], worlds[0], LogOf(moves[i].who, worlds, moves, i + 1), worlds[i + 1]))
  }

  /**
   Jobs keep to their steps as long as they are undisturbed exactly if what each did meanwhile is the log of a
   run - as Runner.dfy shows of every run among others that do no more than it relies on.
   */
  lemma LoggedIsKeepingToSteps(actors: seq<Actor>, worlds: seq<World>, moves: seq<Move>)
    requires IsExecution(actors, worlds, moves) && AllSideBySide(actors) && Inv(worlds[0])
    ensures EachIsLogged(actors, worlds, moves) <==> EachKeepsToItsSteps(actors, worlds, moves)
  {
    if EachIsLogged(actors, worlds, moves) {
      forall i | 0 <= i < |moves| && Undisturbed(actors, worlds, moves, i)
        ensures Allowed(actors[moves[i].who], worlds[i], moves[i].step)
      {
        var log := LogOf(moves[i].who, worlds, moves, i + 1);
        assert log[|log| - 1] == Event(worlds[i], moves[i].step);
      }
    }
    if EachKeepsToItsSteps(actors, worlds, moves) {
      forall i | 0 <= i < |moves|
        ensures Logged(actors[moves[i].who], worlds[0], LogOf(moves[i].who, worlds, moves, i + 1), worlds[i + 1])
      {
        ViewIsLogged(actors, worlds, moves, moves[i].who, i + 1);
      }
    }
  }
}
