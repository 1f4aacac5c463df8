/** While an answer sounds: nobody gets in, and the first silent frame frees the session. */
module SessionPlayback {
  import opened Session
  import opened SessionRuns
  import P = AtcPipeline
  import S = AtcState

  /** The synthesis has arrived and is being played. */
  predicate Sounding(s: State) {
    && s.ptt.Playing? && !s.ttsPending && s.retryTimer == 0.0 && !s.request.valid
    && s.jobs == [] && s.thinking == [] && !s.transcribing
  }

  /** A frame in which the audio still plays and a broadcast, if it is one, is still tuned in. */
  predicate Audible(s: State, e: Event) {
    e.Tick? ==> e.f.audioPlaying && !(s.atisPlaying && e.f.tunedCom != s.atisCom)
  }

  /** An arrived synthesis sounds, whatever it was for. */
  lemma SpokenSounds(s: State, i: nat)
    requires Inv(s) && i < |s.jobs|
    ensures Sounding(Next(s, Synthesized(i, Spoken)))
  {
    hide S.Advances, S.RestoreIfGen;
    assert i == 0 && |s.jobs| == 1;
    assert s.jobs[..0] + s.jobs[1..] == [];
  }

  /** No event but a silent frame ends it; only frames and others move anything at all. */
  lemma SoundingKeeps(s: State, e: Event)
    requires Sounding(s) && Audible(s, e)
    ensures Sounding(Next(s, e)) && (Next(s, e).atisPlaying <==> s.atisPlaying) && Next(s, e).atisCom == s.atisCom
    ensures !e.Tick? && !e.Elsewhere? ==> Next(s, e) == s
    ensures Next(s, e).syntheses == s.syntheses
  {
    hide Update;
    match e
    case Tick(f) => SoundingTick(s, f);
    case _ =>
  }

  lemma SoundingTick(s: State, f: Frame)
    requires Sounding(s) && Audible(s, Tick(f))
    ensures var t := Update(s, f);
      Sounding(t) && (t.atisPlaying <==> s.atisPlaying) && t.atisCom == s.atisCom && t.syntheses == s.syntheses
  {
    var a := EndPlayback(s, f);
    assert a == s;
    var b := TickRetry(TickCooldown(a));
    assert Sounding(b);
    assert Sounding(DialogFrame(s, f));
  }

  predicate AllAudible(s: State, es: seq<Event>)
    decreases |es|
  {
    es == [] || (Audible(s, es[0]) && AllAudible(Next(s, es[0]), es[1..]))
  }

  /** Over any run in which every frame has audio the answer sounds on and no synthesis starts. */
  lemma {:induction false} SoundingRun(s: State, es: seq<Event>)
    requires Sounding(s) && AllAudible(s, es)
    ensures var t := Run(s, es); Sounding(t) && t.jobs == [] && t.syntheses == s.syntheses
    decreases |es|
  {
    hide Next, Audible;
    if es != [] {
      SoundingKeeps(s, es[0]);
      SoundingRun(Next(s, es[0]), es[1..]);
    }
  }

  /** From the arrival on: press, typed text and the retry button change nothing, and no call and no
      broadcast is put on top of the answer. */
  lemma NobodyTalksOver(s: State, i: nat, es: seq<Event>, ready: bool, text: string, after: P.Desk)
    requires Inv(s) && i < |s.jobs| && AllAudible(Next(s, Synthesized(i, Spoken)), es)
    ensures var t := Run(Next(s, Synthesized(i, Spoken)), es);
      && t.ptt.Playing? && t.jobs == []
      && Next(t, PttDown(ready)) == t && Next(t, Typed(text, ready, after)) == t && Next(t, RetryButton(ready, after)) == t
  {
    hide Run, Next, AllAudible, Inv;
    SpokenSounds(s, i);
    var a := Next(s, Synthesized(i, Spoken));
    SoundingRun(a, es);
    SoundingKeeps(Run(a, es), PttDown(ready));
    SoundingKeeps(Run(a, es), Typed(text, ready, after));
    SoundingKeeps(Run(a, es), RetryButton(ready, after));
  }

  /** The first silent frame frees the session before anything else is polled: a call due in that very
      frame is spoken; else a broadcast that is due starts; else the session is ready for the pilot. */
  lemma SilenceFrees(s: State, f: Frame)
    requires Sounding(s) && !f.audioPlaying
    ensures var t := Next(s, Tick(f));
      if f.ttsReady && f.call != "" then t.jobs == [Call] && t.ptt.Playing? && t.ttsPending
      else if f.ttsReady && f.tunedCom != 0 && s.atisTuned + 1.0 / 60.0 >= 2.0
              && s.atisCooldown - (if s.atisCooldown > 0.0 then 1.0 / 60.0 else 0.0) <= 0.0
      then t.jobs == [AtisBroadcast(f.tunedCom)] && t.ptt.Playing? && t.ttsPending && t.atisPlaying && t.atisCooldown == 120.0
      else t.jobs == [] && t.ptt.Ready? && !t.atisPlaying
  {
    var a := EndPlayback(s, f);
    assert a == s.(ptt := Ready, atisPlaying := false);
    var b := TickRetry(TickCooldown(a));
    assert b.ptt.Ready? && b.jobs == [];
  }

  /** A broadcast that fails is tried again 15 s later, the third time 120 s later; one that is heard
      starts the count afresh. */
  lemma AtisSeries(s: State, com: nat, r: SpeechResult)
    requires s.jobs == [AtisBroadcast(com)] && s.atisFailures < 3
    ensures var t := Next(s, Synthesized(0, r));
      && t.jobs == [] && !t.ttsPending
      && (r.Spoken? ==> t.atisFailures == 0 && t.atisPlaying == s.atisPlaying && t.ptt == s.ptt)
      && (!r.Spoken? ==> t.ptt.Ready? && !t.atisPlaying)
      && (!r.Spoken? && s.atisFailures < 2 ==> t.atisFailures == s.atisFailures + 1 && t.atisCooldown == 15.0)
      && (!r.Spoken? && s.atisFailures == 2 ==> t.atisFailures == 0 && t.atisCooldown == 120.0)
  {
    assert s.jobs[..0] + s.jobs[1..] == [];
  }
}
