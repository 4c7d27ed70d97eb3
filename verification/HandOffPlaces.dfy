/** Conservation: every accepted functor is in exactly one place, and each queue is first-in first-out. */
module HandOffPlaces {
  import opened Ring
  import RingProofs
  import H = HandOff
  import opened HandOff
  import P = HandOffProofs

  ghost predicate PlaceOk(s: H.State, f: Functor)
    requires f < |s.place|
  {
    match s.place[f]
    case Hand(t) => Holds(Prod(s.ring, t), f)
    case InRing(i) => i < |s.ring.log| && s.ring.log[i] == f
    case InFallback(i) => i < |s.fbLog| && s.fbLog[i] == f
  }

  ghost predicate HandOk(s: H.State, t: Thread)
  {
    var p := Prod(s.ring, t);
    InHand(p) ==> p.f < |s.place| && s.place[p.f] == Hand(t)
  }

  ghost predicate RingOk(s: H.State, i: nat)
    requires i < |s.ring.log|
  {
    s.ring.log[i] < |s.place| && s.place[s.ring.log[i]] == InRing(i)
  }

  ghost predicate FallbackOk(s: H.State, i: nat)
    requires i < |s.fbLog|
  {
    s.fbLog[i] < |s.place| && s.place[s.fbLog[i]] == InFallback(i)
  }

  ghost predicate Places(s: H.State)
  {
    && (forall f: Functor :: f < |s.place| ==> PlaceOk(s, f))
    && (forall t: Thread :: HandOk(s, t))
    && (forall i: nat :: i < |s.ring.log| ==> RingOk(s, i))
    && (forall i: nat :: i < |s.fbLog| ==> FallbackOk(s, i))
  }

  // What was started from each queue, and what is still in it, is what entered it, in order.
  ghost predicate Ordered(s: H.State)
  {
    && RingPart(s.trace) == s.ring.out
    && FallbackPart(s.trace) + s.batch + s.fallback == s.fbLog
  }

  lemma CallPlaces(s: H.State, t: Thread)
    requires Places(s) && H.Enabled(s, Call(t))
    ensures Places(H.Do(s, Call(t)))
  {
    var s' := H.Do(s, Call(t));
    forall f: Functor | f < |s'.place|
      ensures PlaceOk(s', f)
    {
      if f < |s.place| { assert PlaceOk(s, f); }
    }
    forall u: Thread
      ensures HandOk(s', u)
    {
      assert HandOk(s, u);
    }
    forall i: nat | i < |s'.ring.log|
      ensures RingOk(s', i)
    {
      assert RingOk(s, i);
    }
    forall i: nat | i < |s'.fbLog|
      ensures FallbackOk(s', i)
    {
      assert FallbackOk(s, i);
    }
  }

  lemma CasPlaces(s: H.State, t: Thread)
    requires Places(s) && H.Enabled(s, Move(t, CasOk(t)))
    ensures Places(H.Do(s, Move(t, CasOk(t))))
  {
    var s' := H.Do(s, Move(t, CasOk(t)));
    var g := Prod(s.ring, t).f;
    assert HandOk(s, t) && Holds(Prod(s.ring, t), g);
    forall f: Functor | f < |s'.place|
      ensures PlaceOk(s', f)
    {
      assert PlaceOk(s, f);
    }
    forall u: Thread
      ensures HandOk(s', u)
    {
      assert HandOk(s, u);
    }
    forall i: nat | i < |s'.ring.log|
      ensures RingOk(s', i)
    {
      if i < |s.ring.log| { assert RingOk(s, i); }
    }
    forall i: nat | i < |s'.fbLog|
      ensures FallbackOk(s', i)
    {
      assert FallbackOk(s, i);
    }
  }

  lemma AppendPlaces(s: H.State, t: Thread)
    requires Places(s) && H.Enabled(s, Append(t))
    ensures Places(H.Do(s, Append(t)))
  {
    var s' := H.Do(s, Append(t));
    var g := Prod(s.ring, t).f;
    assert HandOk(s, t) && Holds(Prod(s.ring, t), g);
    forall f: Functor | f < |s'.place|
      ensures PlaceOk(s', f)
    {
      assert PlaceOk(s, f);
    }
    forall u: Thread
      ensures HandOk(s', u)
    {
      assert HandOk(s, u);
    }
    forall i: nat | i < |s'.ring.log|
      ensures RingOk(s', i)
    {
      assert RingOk(s, i);
    }
    forall i: nat | i < |s'.fbLog|
      ensures FallbackOk(s', i)
    {
      if i < |s.fbLog| { assert FallbackOk(s, i); }
    }
  }

  predicate MovesFunctor(st: H.Step)
  {
    st.Call? || st.Append? || (st.Move? && st.st.CasOk?)
  }

  // Every other step leaves each functor where it was.
  lemma StillFrame(s: H.State, st: H.Step)
    requires H.Enabled(s, st) && !MovesFunctor(st)
    ensures
      var s' := H.Do(s, st);
      && s'.place == s.place && s'.fbLog == s.fbLog && s'.ring.log == s.ring.log
      && forall t: Thread ::
           var p, p' := Prod(s.ring, t), Prod(s'.ring, t);
           (InHand(p) <==> InHand(p')) && (InHand(p) ==> p.f == p'.f)
  {
    match st
    case Move(t, rst) =>
      P.MoveFrame(s, t, rst);
      match rst {
        case LoadHead(u) =>
        case LoadTail(u) =>
        case CheckFull(u) =>
        case CasFail(u) =>
        case Fill(u) =>
        case Commit(u) =>
      }
    case Consume(rst) => P.ConsumeFrame(s, rst);
    case _ =>
  }

  lemma StepPlaces(s: H.State, st: H.Step)
    requires Places(s) && H.Enabled(s, st)
    ensures Places(H.Do(s, st))
  {
    if st.Call? {
      CallPlaces(s, st.t);
    } else if st.Append? {
      AppendPlaces(s, st.t);
    } else if st.Move? && st.st.CasOk? {
      CasPlaces(s, st.t);
    } else {
      StillFrame(s, st);
      var s' := H.Do(s, st);
      forall f: Functor | f < |s'.place|
        ensures PlaceOk(s', f)
      {
        assert PlaceOk(s, f);
      }
      forall u: Thread
        ensures HandOk(s', u)
      {
        assert HandOk(s, u);
      }
      forall i: nat | i < |s'.ring.log|
        ensures RingOk(s', i)
      {
        assert RingOk(s, i);
      }
      forall i: nat | i < |s'.fbLog|
        ensures FallbackOk(s', i)
      {
        assert FallbackOk(s, i);
      }
    }
  }

  lemma PartsSnoc(trace: seq<Ran>, r: Ran)
    ensures RingPart(trace + [r]) == RingPart(trace) + if r.FromRing? then [r.f] else []
    ensures FallbackPart(trace + [r]) == FallbackPart(trace) + if r.FromFallback? then [r.f] else []
  {
    assert (trace + [r])[..|trace|] == trace;
  }

  lemma StartedFromRing(s: H.State, s': H.State, f: Functor)
    requires Ordered(s) && s'.trace == s.trace + [FromRing(f)] && s'.ring.out == s.ring.out + [f]
    requires s'.batch == s.batch && s'.fallback == s.fallback && s'.fbLog == s.fbLog
    ensures Ordered(s')
  {
    PartsSnoc(s.trace, FromRing(f));
  }

  lemma TakeOrdered(s: H.State)
    requires RingProofs.Inv(s.ring) && Ordered(s) && H.Enabled(s, Consume(Take))
    ensures Ordered(H.Do(s, Consume(Take)))
  {
    RingProofs.TakenWasCommitted(s.ring);
    StartedFromRing(s, H.Do(s, Consume(Take)), HeadNode(s.ring).data.f);
  }

  lemma Rotate(a: seq<Functor>, b: seq<Functor>, c: seq<Functor>)
    requires b != []
    ensures (a + [b[0]]) + b[1..] + c == a + b + c
  {
    assert b == [b[0]] + b[1..];
  }

  lemma StartOrdered(s: H.State)
    requires Ordered(s) && H.Enabled(s, StartNext)
    ensures Ordered(H.Do(s, StartNext))
  {
    PartsSnoc(s.trace, FromFallback(s.batch[0]));
    Rotate(FallbackPart(s.trace), s.batch, s.fallback);
  }

  lemma CallerOrdered(s: H.State, st: H.Step)
    requires P.Control(s) && Ordered(s) && H.Enabled(s, st) && P.CallerStep(st)
    ensures Ordered(H.Do(s, st))
  {
    if st.Append? {
      var a, f := FallbackPart(s.trace) + s.batch, Prod(s.ring, st.t).f;
      assert a + (s.fallback + [f]) == (a + s.fallback) + [f];
    }
  }

  lemma LoopOrdered(s: H.State, st: H.Step)
    requires P.Control(s) && Ordered(s) && H.Enabled(s, st)
    requires !P.CallerStep(st) && !st.Move? && !st.Consume? && !st.StartNext?
    ensures Ordered(H.Do(s, st))
  {
    if st.SwapVector? {
      var a := FallbackPart(s.trace);
      assert a + [] + s.fallback == a + s.fallback + [];
    }
  }

  lemma StepOrdered(s: H.State, st: H.Step)
    requires RingProofs.Inv(s.ring) && P.Control(s) && Ordered(s) && H.Enabled(s, st)
    ensures Ordered(H.Do(s, st))
  {
    if st.Move? {
      P.MoveFrame(s, st.t, st.st);
    } else if st.Consume? {
      if st.st.Take? {
        TakeOrdered(s);
      } else {
        P.ConsumeFrame(s, st.st);
      }
    } else if st.StartNext? {
      StartOrdered(s);
    } else if P.CallerStep(st) {
      CallerOrdered(s, st);
    } else {
      LoopOrdered(s, st);
    }
  }

  lemma {:induction false} ScheduleConserves(s: H.State, steps: seq<H.Step>)
    requires P.Inv(s) && Places(s) && Ordered(s) && H.Schedule(s, steps)
    ensures P.Inv(H.Exec(s, steps)) && Places(H.Exec(s, steps)) && Ordered(H.Exec(s, steps))
    decreases |steps|
  {
    if steps == [] {
    } else {
      P.StepInv(s, steps[0]);
      StepPlaces(s, steps[0]);
      StepOrdered(s, steps[0]);
      ScheduleConserves(H.Do(s, steps[0]), steps[1..]);
    }
  }
}
