/** The two halves of the revert guard joined: sessions whose desk is moved by the state machine alone,
    what their failures leave behind, and what the retry button then gives. */
module SessionGuard {
  import P = AtcPipeline
  import S = AtcState
  import G = AtcGuard
  import F = AtcFrames
  import R = AtcReplay
  import opened Session
  import opened SessionRuns

  // ── What moves the desk ───────────────────────────────────────────

  /** Some run of the state machine's entry points leads from one desk to the other. */
  ghost predicate ByMachine(t: P.Desk, u: P.Desk) {
    exists snapshots, clock, steps :: G.Run(G.World(t, snapshots, clock), steps).desk == u
  }

  /** Some run of frames does. */
  ghost predicate ByFrames(t: P.Desk, u: P.Desk) {
    exists snapshots, clock, frames :: F.AllFrames(frames) && G.Run(G.World(t, snapshots, clock), frames).desk == u
  }

  /** The desk an event leaves, as far as the state machine is concerned. */
  function Handed(s: State, e: Event): P.Desk {
    match e
    case Heard(_, _, after) => after
    case Typed(_, _, after) => after
    case RetryButton(_, after) => after
    case Answered(after, _) => after
    case Tick(f) => f.after
    case Elsewhere(after) => after
    case _ => s.desk
  }

  lemma MachineAdvances(t: P.Desk, u: P.Desk)
    requires ByMachine(t, u)
    ensures S.Advances(t.m, u.m)
  {
    hide G.Run, S.Advances;
    var snapshots, clock, steps :| G.Run(G.World(t, snapshots, clock), steps).desk == u;
    G.RunAdvances(G.World(t, snapshots, clock), steps);
  }

  lemma MachineEventIsLegal(s: State, e: Event)
    requires ByMachine(s.desk, Handed(s, e))
    ensures Legal(s, e)
  {
    hide ByMachine, S.Advances;
    MachineAdvances(s.desk, Handed(s, e));
  }

  /** The engine's synchronous path is two steps of the machine. */
  lemma ExchangeIsByMachine(env: P.Env, t: P.Desk, msg: P.Message, now: real)
    ensures ByMachine(t, G.Exchange(env, t, msg, now).0)
  {
    hide P.Process, G.Latch, G.Recognise;
    var w := G.World(t, [], now);
    var latch := G.Step(G.LatchIntent(msg), now);
    var speak := G.Step(G.Speak(env, G.Recognise(env, G.Latch(t.m, msg), msg)), now);
    RunOfTwo(w, latch, speak);
    assert G.Run(w, [latch, speak]).desk == G.Exchange(env, t, msg, now).0;
  }

  lemma RunOfTwo(w: G.World, a: G.Step, b: G.Step)
    ensures G.Run(w, [a, b]) == G.Do(G.Do(w, a), b)
  {
    hide G.Do;
    assert [a, b][1..] == [b] && [b][1..] == [];
    assert G.Run(w, [a, b]) == G.Run(G.Do(w, a), [b]) == G.Run(G.Do(G.Do(w, a), b), []);
  }

  // ── Sessions driven by the machine ────────────────────────────────

  /** Every event moves the desk as the machine can, and none aborts a synthesis. */
  ghost predicate Driven(s: State, es: seq<Event>)
    decreases |es|
  {
    es == [] || (ByMachine(s.desk, Handed(s, es[0])) && !AbortsSynthesis(s, es[0]) && Driven(Next(s, es[0]), es[1..]))
  }

  lemma {:induction false} DrivenIsLegal(s: State, es: seq<Event>)
    requires Driven(s, es)
    ensures NoAbort(s, es)
    decreases |es|
  {
    hide ByMachine, Next, AbortsSynthesis, Legal, Handed;
    if es != [] {
      MachineEventIsLegal(s, es[0]);
      DrivenIsLegal(Next(s, es[0]), es[1..]);
    }
  }

  /** So the session's guarantees need nothing but the machine itself. */
  lemma DrivenSession(t: P.Desk, es: seq<Event>)
    requires Driven(Init(t), es)
    ensures var s := Run(Init(t), es);
      Inv(s) && |s.jobs| <= 1 && s.syntheses <= MAX_TRIES && s.restores <= 1
  {
    hide Run, Driven, NoAbort, S.Advances;
    DrivenIsLegal(Init(t), es);
    InvInit(t);
    InvRun(Init(t), es);
  }

  // ── The unheard answer ────────────────────────────────────────────

  /** While the answer is tried, only frames move the desk. */
  ghost predicate FramesMeanwhile(s: State, es: seq<Event>)
    decreases |es|
  {
    es == [] || (ByFrames(s.desk, Handed(s, es[0])) && FramesMeanwhile(Next(s, es[0]), es[1..]))
  }

  lemma FramesKeep(t: P.Desk, u: P.Desk)
    requires ByFrames(t, u)
    ensures S.SameClearance(t.m, u.m)
  {
    hide G.Run, F.AllFrames, S.SameClearance;
    var snapshots, clock, frames :| F.AllFrames(frames) && G.Run(G.World(t, snapshots, clock), frames).desk == u;
    R.FramesKeepClearance(G.World(t, snapshots, clock), frames);
  }

  lemma OpenStepKeeps(s: State, e: Event)
    requires Inv(s) && s.request.valid && Next(s, e).request.valid && ByFrames(s.desk, Handed(s, e))
    ensures S.SameClearance(s.desk.m, Next(s, e).desk.m)
  {
    hide Inv, Next, ByFrames;
    OpenKeeps(s, e);
    FramesKeep(s.desk, Handed(s, e));
  }

  lemma {:induction false} OpenRunKeeps(s: State, es: seq<Event>)
    requires Inv(s) && NoAbort(s, es) && StaysOpen(s, es) && FramesMeanwhile(s, es)
    ensures S.SameClearance(s.desk.m, Run(s, es).desk.m)
    decreases |es|
  {
    hide Inv, Next, AbortsSynthesis, Legal, ByFrames, Handed;
    if es != [] {
      InvNext(s, es[0]);
      OpenStepKeeps(s, es[0]);
      OpenRunKeeps(Next(s, es[0]), es[1..]);
    }
  }

  /** An answer that passed guards and strict check is never spoken.  Either the machine is back to the
      record captured before the transmission, or it was left alone, the clearance is still on file,
      and a repeat request returns the unheard text verbatim. */
  lemma UnheardIsUndoneOrRepeated(s: State, c: Conversation, env: P.Env, heard: P.Message, now: real,
                                  env2: P.Env, ask: P.Message, later: real)
    requires Inv(s) && Fails(s, c)
    requires var (t, resp) := P.Process(env, Waited(s, c).desk, heard, now); c.after == t && c.text == resp.text
    requires R.Heard(env, Waited(s, c).desk, heard, now)
    requires FramesMeanwhile(Speaking(s, c), c.open) && ask.intent.RequestRepeat?
    ensures var f, t := Failing(s, c), Ended(s, c);
      if f.desk.m.gen == c.after.m.gen
      then S.Semantic(f.desk.m) == S.Semantic(c.after.m) && t.desk.m == s.desk.m.(gen := f.desk.m.gen + 1)
      else t.desk.m == f.desk.m && S.SameClearance(c.after.m, t.desk.m)
           && P.Process(env2, t.desk, ask, later).1.text == c.text
  {
    hide Inv, Next, Run, NoAbort, StaysOpen, LastFailure, FramesMeanwhile, P.Process, R.Heard, S.Advances,
         Speaking, Failing, Ended, Waited, Asked;
    FailureSeenFromDispatch(s, c);
    SpeakingIsOpen(s, c);
    KeptWhileFailing(s, c);
    R.ResponseOnFile(env, Waited(s, c).desk, heard, now);
    if Failing(s, c).desk.m.gen != c.after.m.gen {
      R.RepeatAnswers(env2, Ended(s, c).desk, ask, later);
    }
  }

  lemma KeptWhileFailing(s: State, c: Conversation)
    requires Inv(s) && Fails(s, c) && FramesMeanwhile(Speaking(s, c), c.open)
    ensures S.SameClearance(c.after.m, Failing(s, c).desk.m)
  {
    hide Inv, Next, Run, NoAbort, StaysOpen, LastFailure, FramesMeanwhile, Speaking, Waited, Asked;
    SpeakingIsOpen(s, c);
    OpenRunKeeps(Speaking(s, c), c.open);
  }

  // ── The retry button ──────────────────────────────────────────────

  /** After a restored failure the retry button hands the engine the transcript that failed, from the
      record it was first handed from. */
  lemma RetryStartsOver(s: State, c: Conversation, after: P.Desk)
    requires Inv(s) && Fails(s, c) && c.last.r.Failed? && Failing(s, c).desk.m.gen == c.after.m.gen
    requires Asked(s, c).lastTranscript != ""
    ensures var t := Ended(s, c);
      var again := Next(t, RetryButton(true, after));
      && again.ptt.Processing? && again.lastTranscript == Asked(s, c).lastTranscript
      && again.thinking == t.thinking + [t.desk.m]
      && t.desk.m.(gen := s.desk.m.gen) == s.desk.m
  {
    hide Inv, Run, NoAbort, StaysOpen, LastFailure, S.Advances, Speaking, Failing, Ended, Waited, Asked, Fails;
    FailureSeenFromDispatch(s, c);
  }

  /** If the answer that failed was the engine's direct one, the retry gives that very answer and leads
      to the same state if and only if both runs agree on the airport change. */
  lemma RetryAnswersAlike(s: State, c: Conversation, env: P.Env, msg: P.Message, now: real, later: real)
    requires Inv(s) && Fails(s, c) && c.last.r.Failed? && Failing(s, c).desk.m.gen == c.after.m.gen
    requires var (t, resp) := G.Exchange(env, s.desk, msg, now); c.after == t && c.text == resp.text
    ensures var (first, second) := (G.Exchange(env, s.desk, msg, now), G.Exchange(env, Ended(s, c).desk, msg, later));
      var agree := P.Dropped(s.desk, env.ctx.nearestAirport) <==> P.Dropped(Ended(s, c).desk, env.ctx.nearestAirport);
      && ((second.1 == first.1 && R.Same(second.0.m, c.after.m)) <==> agree)
      && (agree ==> second.1.text == c.text)
  {
    hide Inv, Run, NoAbort, StaysOpen, LastFailure, G.Exchange, R.Same, P.Dropped, S.Advances,
         Speaking, Failing, Ended, Waited, Asked, Fails;
    FailureSeenFromDispatch(s, c);
    var t := Ended(s, c);
    R.SameUpToGen(s.desk.m, t.desk.m.gen);
    R.ExchangeIff(env, t.desk, s.desk, msg, later, now);
  }
}
