/**
 * What is in flight during a capture turn, in terms of the events: an operation is in flight from the moment it is
 * taken on until its promise is forgotten.
 */
module TurnFlights {
  import opened Wrappers
  import opened Evidence
  import opened Turn
  import opened TurnTrace

  /** This operation has been started. */
  predicate Started(w: Work, op: Op) {
    match op
    case PromptOp => w.promptSent
    case AnswerOp(i) => i < |w.answers|
    case Idle(k) => k < w.idles
  }

  /** In flight is exactly what was started and not yet forgotten, and only started operations can be forgotten. */
  ghost predicate FlightsAt(es: seq<Event>, w: Work) {
    && w.airborne !! w.landed
    && (forall op: Op :: op in InFlight(w) <==> Started(w, op) && !Forgotten(es, op))
    && (forall op: Op :: Forgotten(es, op) ==> Started(w, op))
  }

  /** Only forgetting changes what is forgotten, and only before the report is written. */
  lemma ForgottenSame(es: seq<Event>, e: Event)
    requires !e.Forget? || Frozen(es)
    ensures forall op: Op :: Forgotten(es + [e], op) == Forgotten(es, op)
  {
    forall op: Op
      ensures Forgotten(es + [e], op) == Forgotten(es, op)
    {
      ForgottenMore(es, e, op);
    }
  }

  /** An event that starts nothing and forgets nothing. */
  lemma FlightsElsewhere(es: seq<Event>, e: Event, w: Work, next: Work)
    requires FlightsAt(es, w) && !e.Forget?
    requires next.airborne == w.airborne && next.landed == w.landed
    requires |next.answers| == |w.answers| && next.promptSent == w.promptSent && next.idles == w.idles
    ensures FlightsAt(es + [e], next)
  {
    ForgottenSame(es, e);
    assert forall op: Op :: Started(next, op) == Started(w, op);
  }

  lemma ForgetFlights(es: seq<Event>, w: Work, op: Op)
    requires FlightsAt(es, w) && op in w.landed && !Frozen(es)
    ensures FlightsAt(es + [Forget(op)], w.(landed := w.landed - {op}))
  {
    var more, next := es + [Forget(op)], w.(landed := w.landed - {op});
    forall x: Op
      ensures x in InFlight(next) <==> Started(next, x) && !Forgotten(more, x)
      ensures Forgotten(more, x) ==> Started(next, x)
    {
      ForgottenMore(es, Forget(op), x);
      assert x in InFlight(next) <==> x in InFlight(w) && x != op;
      assert Started(next, x) == Started(w, x);
    }
  }

  lemma LandFlights(es: seq<Event>, w: Work, op: Op)
    requires FlightsAt(es, w) && op in w.airborne
    ensures FlightsAt(es, Land(w, op))
  {
    var next := Land(w, op);
    assert InFlight(next) == InFlight(w);
    assert forall x: Op :: Started(next, x) == Started(w, x);
  }

  lemma LaunchFlights(cfg: Config, es: seq<Event>, w: Work, client: string, id: string)
    requires FlightsAt(es, w)
    ensures FlightsAt(es, Launch(cfg, w, client, id))
  {
    var next, started := Launch(cfg, w, client, id), AnswerOp(|w.answers|);
    assert !Started(w, started);
    assert started !in InFlight(w);
    forall x: Op
      ensures x in InFlight(next) <==> x in InFlight(w) || x == started
      ensures Started(next, x) <==> Started(w, x) || x == started
    {
    }
  }

  lemma AskFlights(es: seq<Event>, w: Work)
    requires FlightsAt(es, w) && !w.promptSent
    ensures FlightsAt(es, Ask(w))
  {
    assert !Started(w, PromptOp);
    assert PromptOp !in InFlight(w);
    forall x: Op
      ensures x in InFlight(Ask(w)) <==> x in InFlight(w) || x == PromptOp
      ensures Started(Ask(w), x) <==> Started(w, x) || x == PromptOp
    {
    }
  }

  lemma IdleFlights(es: seq<Event>, w: Work)
    requires FlightsAt(es, w)
    ensures FlightsAt(es, w.(landed := w.landed + {Idle(w.idles)}, idles := w.idles + 1))
  {
    var next, started := w.(landed := w.landed + {Idle(w.idles)}, idles := w.idles + 1), Idle(w.idles);
    assert !Started(w, started);
    assert started !in InFlight(w);
    forall x: Op
      ensures x in InFlight(next) <==> x in InFlight(w) || x == started
      ensures Started(next, x) <==> Started(w, x) || x == started
    {
    }
  }

  // ---------------------------------------------------------------- one frame

  /** How many approvals the turn has taken on. */
  function Load(w: Work): nat { |w.answers| + w.idles }

  lemma LaunchTracks(cfg: Config, es: seq<Event>, t: Turn, id: string)
    requires FlightsAt(es, t.work)
    ensures var next := LaunchAnswer(cfg, t, id);
      FlightsAt(es, next.work) && Load(next.work) == Load(t.work) + 1 && next.work.promptSent == t.work.promptSent
  {
    if t.ending.phase.Running? && t.view.clientId.Some? {
      LaunchFlights(cfg, es, t.work, t.view.clientId.value, id);
    } else {
      IdleFlights(es, t.work);
    }
  }

  /** Launching answers touches the work alone. */
  lemma {:induction false} LaunchAllFrame(cfg: Config, t: Turn, ids: seq<string>)
    ensures var next := LaunchAll(cfg, t, ids); next == t.(work := next.work)
    ensures !t.ending.phase.Running? ==>
      var next := LaunchAll(cfg, t, ids).work;
      && next == t.work.(landed := next.landed, idles := next.idles)
      && forall op: Op :: op in next.landed ==> op in t.work.landed || op.Idle?
  {
    if ids != [] {
      LaunchAllFrame(cfg, t, ids[..|ids| - 1]);
    }
  }

  lemma {:induction false} LaunchAllTracks(cfg: Config, es: seq<Event>, t: Turn, ids: seq<string>)
    requires FlightsAt(es, t.work)
    ensures var next := LaunchAll(cfg, t, ids); FlightsAt(es, next.work) && Load(next.work) == Load(t.work) + |ids|
  {
    if ids != [] {
      var init := ids[..|ids| - 1];
      LaunchAllTracks(cfg, es, t, init);
      LaunchTracks(cfg, es, LaunchAll(cfg, t, init), ids[|ids| - 1]);
    }
  }

  /**
   * In any phase, the turn has taken on one operation for each approval its view owes; `ids` are those raised so far.
   */
  ghost predicate Tracked(es: seq<Event>, t: Turn, ids: seq<string>) {
    && FlightsAt(es, t.work)
    && (t.view.clientId.None? ==> t.view.queued == ids)
    && t.view.taken == (set id | id in ids)
    && Load(t.work) == |Owed(t.view.clientId, ids)|
  }

  lemma ReplaceTracks(cfg: Config, es: seq<Event>, t: Turn, frame: Frame, ids: seq<string>)
    requires Tracked(es, t, ids)
    ensures Tracked(es, Replace(cfg, Keep(cfg, t, frame), frame), ids)
  {
    var next := Replace(cfg, Keep(cfg, t, frame), frame);
    assert forall op: Op :: Started(next.work, op) == Started(t.work, op);
  }

  lemma SendTracks(es: seq<Event>, t: Turn, ids: seq<string>)
    requires Tracked(es, t, ids)
    ensures Tracked(es, SendPrompt(t), ids)
  {
    if !t.work.promptSent {
      AskFlights(es, t.work);
    }
  }

  lemma AnnounceTracks(cfg: Config, es: seq<Event>, t: Turn, frame: Frame, ids: seq<string>)
    requires Tracked(es, t, ids)
    ensures Tracked(es, Announce(cfg, t, frame), ids)
  {
    if t.view.clientId.None? && frame.announced.Some? {
      var t0 := t.(view := t.view.(clientId := frame.announced, queued := []));
      LaunchAllFrame(cfg, t0, ids);
      LaunchAllTracks(cfg, es, t0, ids);
      SendTracks(es, LaunchAll(cfg, t0, ids), ids);
    }
  }

  lemma BaselineTracks(es: seq<Event>, t: Turn, frame: Frame, ids: seq<string>)
    requires Tracked(es, t, ids)
    ensures Tracked(es, TakeBaseline(t, frame), ids)
  {
    SendTracks(es, t.(view := t.view.(baseline := true)), ids);
  }

  lemma RaiseTracks(cfg: Config, es: seq<Event>, t: Turn, frame: Frame, ids: seq<string>, id: string)
    requires Tracked(es, t, ids) && frame.raised == Some(id) && id !in ids
    ensures Tracked(es, Raise(cfg, t, frame), ids + [id])
  {
    var t0 := t.(view := t.view.(taken := t.view.taken + {id}));
    LaunchTracks(cfg, es, t0, id);
    assert t0.view.taken == set x | x in ids + [id];
  }

  /** Whatever the phase, one frame takes on what it makes the turn owe, and keeps what is in flight. */
  lemma HandleTracks(cfg: Config, es: seq<Event>, t: Turn, frame: Frame, ids: seq<string>)
    requires Tracked(es, t, ids)
    ensures Tracked(es, HandleFrame(cfg, t, frame),
                    if frame.raised.Some? && frame.raised.value !in ids then ids + [frame.raised.value] else ids)
  {
    ReplaceTracks(cfg, es, t, frame, ids);
    var t2 := Replace(cfg, Keep(cfg, t, frame), frame);
    AnnounceTracks(cfg, es, t2, frame, ids);
    var t3 := Announce(cfg, t2, frame);
    BaselineTracks(es, t3, frame, ids);
    if frame.raised.Some? && frame.raised.value !in ids {
      RaiseTracks(cfg, es, TakeBaseline(t3, frame), frame, ids, frame.raised.value);
    }
  }
}
