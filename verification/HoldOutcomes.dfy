// When a candidate is held on, given back or made a call, decided by the judges; and what
// whole streams with a call, a headless call or plain text let go of.
module HoldOutcomes {
  import opened Fences
  import opened HoldMachine

  // --- One input with a candidate held -----------------------------------------------------

  // The terminal ends the candidate as a call.
  ghost predicate Commits(base: Base, judges: Judges, h: Candidate, x: Input) {
    && x.Terminal? && h.place == ToolArgs && (ToolArgs, x.name) in base.transitions
    && base.transitions[(ToolArgs, x.name)].commit
    && (h.headless ==> judges.toolOk(h.raw + x.value))
  }

  // The input is held too.
  ghost predicate HoldsOn(base: Base, judges: Judges, h: Candidate, x: Input) {
    if h.place == ToolName then
      if x.Plain? then |h.name + x.value| <= 256 && '\n' !in h.name + x.value
      else (ToolName, x.name) in base.transitions
           && (judges.nameOk(h.name) || (h.headlessOpener && judges.headlessOk(h.raw + x.value)))
    else
      && (x.Terminal? ==> h.place == ToolArgs && (ToolArgs, x.name) !in base.transitions && x.name in judges.argsTerminals)
      && judges.shapeOk(h.raw + x.value)
  }

  // A terminal that means nothing to the candidate: it is given back without it.
  ghost predicate Foreign(base: Base, judges: Judges, h: Candidate, x: Input) {
    x.Terminal? && (h.place, x.name) !in base.transitions && !(h.place == ToolArgs && x.name in judges.argsTerminals)
  }

  // Each of the outcomes, exactly when it happens: the call leaves alone and nothing is held;
  // nothing leaves and the candidate has grown by the input; or the candidate leaves as the
  // text it was, with the input unless that means nothing to it.
  lemma HeldOutcome(base: Base, judges: Judges, st: State, x: Input)
    requires st.hold.Some? && !Dropped(judges, st, x)
    ensures var h, step := st.hold.value, Step(base, judges, st, x);
      && (Commits(base, judges, h, x) <==> exists r | r in step.out :: r.AsCall?)
      && (Commits(base, judges, h, x) ==>
            step.out == [AsCall(h, base.transitions[(ToolArgs, x.name)], x.value, x.tokens)] && step.state.hold == None)
      && (HoldsOn(base, judges, h, x) <==> step.out == [])
      && (HoldsOn(base, judges, h, x) ==>
            step.state.spot == st.spot && step.state.hold.Some? && step.state.hold.value.raw == h.raw + x.value)
  {
    if x.Terminal? {
      var back := GiveBack(base, st.spot, st.hold.value);
      assert forall r | r in back.out :: r.AsText?;
      assert forall r | r in FreeTerminal(base, judges, back.state.spot, x.name, x.value, x.tokens).out :: !r.AsCall?;
    }
  }

  lemma GivenBack(base: Base, judges: Judges, st: State, x: Input)
    requires st.hold.Some? && !Dropped(judges, st, x)
    requires !Commits(base, judges, st.hold.value, x) && !HoldsOn(base, judges, st.hold.value, x)
    ensures var h, s := st.hold.value, st.spot;
      if Foreign(base, judges, h, x) then
        var now := s.(fence := if s.place == Content then Feed(s.fence, h.raw) else s.fence);
        var free := Step(base, judges, State(now, None), x);
        Step(base, judges, st, x) == Stepped(free.state, [AsText(h.raw, h.tokens)] + free.out)
      else
        var now := s.(fence := if s.place == Content then Feed(s.fence, h.raw + x.value) else s.fence);
        Step(base, judges, st, x) == Stepped(State(now, None), [AsText(h.raw + x.value, h.tokens + x.tokens)])
  {
  }

  // --- One input with none held ----------------------------------------------------------------

  // A terminal opens a candidate.
  ghost predicate OpensAt(base: Base, judges: Judges, s: Spot, name: string) {
    && (s.place, name) in base.transitions
    && var t := base.transitions[(s.place, name)];
       t.provisional && !t.heldOnly && !judges.skipTools && !(s.place == Content && s.fence.fence.Some?)
  }

  // It is text: it belongs inside candidates alone, or would open one inside a fence.
  ghost predicate TextAt(base: Base, s: Spot, name: string) {
    && (s.place, name) in base.transitions
    && var t := base.transitions[(s.place, name)];
       t.heldOnly || (t.provisional && s.place == Content && s.fence.fence.Some?)
  }

  lemma FreeOutcome(base: Base, judges: Judges, s: Spot, name: string, value: string, n: nat)
    ensures var step := Step(base, judges, State(s, None), Terminal(name, value, n));
      && (OpensAt(base, judges, s, name) <==> step.out == [])
      && (OpensAt(base, judges, s, name) ==> step.state.spot == s && step.state.hold.Some? && step.state.hold.value.raw == value)
      && (TextAt(base, s, name) <==> step.out == [AsText(value, n)])
      && (!OpensAt(base, judges, s, name) && !TextAt(base, s, name) <==> step.out == [AsTerminal(name, value, n)])
      && (step.out != [] ==> step.state.hold == None)
      && (!OpensAt(base, judges, s, name) && !TextAt(base, s, name) ==>
            var a := base.does(Call(s.place, s.index, ByTerminal(name), value, n));
            step.state.spot == Spot(a.place, a.index, Feed(s.fence, a.shown), s.recovered) && SendsAll(base, s, step.out) == a.events)
  {
    OneRelease(base, s, AsTerminal(name, value, n));
  }

  // --- Streams ----------------------------------------------------------------------------------

  function Texts(xs: seq<Input>): string {
    if xs == [] then "" else Texts(xs[..|xs| - 1]) + xs[|xs| - 1].value
  }

  function TextTokens(xs: seq<Input>): nat {
    if xs == [] then 0 else TextTokens(xs[..|xs| - 1]) + xs[|xs| - 1].tokens
  }

  // The events of the engine underneath for these texts at one place.
  function TextEvents(base: Base, place: Place, index: int, xs: seq<Input>): seq<Event> {
    if xs == [] then []
    else
      var x := xs[|xs| - 1];
      TextEvents(base, place, index, xs[..|xs| - 1]) + base.does(Call(place, index, Text, x.value, x.tokens)).events
  }

  ghost predicate AllPlain(xs: seq<Input>) {
    forall i | 0 <= i < |xs| :: xs[i].Plain?
  }

  ghost predicate Follows(base: Base, judges: Judges, run: Stepped, x: Input, next: Stepped) {
    next == Stepped(Step(base, judges, run.state, x).state, run.out + Step(base, judges, run.state, x).out)
  }

  lemma LastInput(base: Base, judges: Judges, st: State, xs: seq<Input>, x: Input)
    ensures Follows(base, judges, RunAll(base, judges, st, xs), x, RunAll(base, judges, st, xs + [x]))
  {
    assert (xs + [x])[..|xs|] == xs;
  }

  lemma FollowsBehind(base: Base, judges: Judges, out: seq<Release>, run: Stepped, x: Input, next: Stepped, all: Stepped)
    requires Follows(base, judges, run, x, next) && Follows(base, judges, Stepped(run.state, out + run.out), x, all)
    ensures all == Stepped(next.state, out + next.out)
  {
    var more := Step(base, judges, run.state, x).out;
    assert (out + run.out) + more == out + (run.out + more);
  }

  lemma {:induction false} RunConcat(base: Base, judges: Judges, st: State, a: seq<Input>, b: seq<Input>)
    ensures var first := RunAll(base, judges, st, a);
            var then_ := RunAll(base, judges, first.state, b);
            RunAll(base, judges, st, a + b) == Stepped(then_.state, first.out + then_.out)
    decreases |b|
  {
    var first := RunAll(base, judges, st, a);
    if b == [] {
      assert a + b == a && first.out + [] == first.out;
    } else {
      var front, x := b[..|b| - 1], b[|b| - 1];
      RunConcat(base, judges, st, a, front);
      var before := RunAll(base, judges, first.state, front);
      LastInput(base, judges, st, a + front, x);
      LastInput(base, judges, first.state, front, x);
      assert b == front + [x] && a + b == (a + front) + [x];
      FollowsBehind(base, judges, first.out, before, x, RunAll(base, judges, first.state, b), RunAll(base, judges, st, a + b));
    }
  }

  // A run that lets nothing go, in front of another.
  lemma RunBehind(base: Base, judges: Judges, st: State, a: seq<Input>, mid: State, b: seq<Input>)
    requires RunAll(base, judges, st, a) == Stepped(mid, [])
    ensures RunAll(base, judges, st, a + b) == RunAll(base, judges, mid, b)
  {
    RunConcat(base, judges, st, a, b);
    assert [] + RunAll(base, judges, mid, b).out == RunAll(base, judges, mid, b).out;
  }

  // And two such runs, the second of one input.
  lemma SilentParts(base: Base, judges: Judges, st: State, a: seq<Input>, mid: State, x: Input, after: State, b: seq<Input>)
    requires RunAll(base, judges, st, a) == Stepped(mid, []) && Step(base, judges, mid, x) == Stepped(after, [])
    ensures RunAll(base, judges, st, a + ([x] + b)) == RunAll(base, judges, after, b)
  {
    RunBehind(base, judges, st, a, mid, [x] + b);
    RunOne(base, judges, mid, x);
    RunBehind(base, judges, mid, [x], after, b);
  }

  // Text outside candidates leaves as it comes, and in the content goes past the fences.
  lemma {:induction false} PlainStream(base: Base, judges: Judges, s: Spot, xs: seq<Input>)
    requires AllPlain(xs)
    ensures var run := RunAll(base, judges, State(s, None), xs);
      && run.state.hold == None && run.state.spot.place == s.place && run.state.spot.index == s.index
      && run.state.spot.fence == (if s.place == Content then Feed(s.fence, Texts(xs)) else s.fence)
      && run.state.spot.recovered == s.recovered
      && SendsAll(base, s, run.out) == TextEvents(base, s.place, s.index, xs)
      && Released(run.out) == Texts(xs) && |run.out| == |xs|
  {
    if xs != [] {
      var front, x := xs[..|xs| - 1], xs[|xs| - 1];
      PlainStream(base, judges, s, front);
      var before := RunAll(base, judges, State(s, None), front);
      RunVisible(base, judges, State(s, None), front);
      ReleasesConcat(base, s, before.out, [AsText(x.value, x.tokens)]);
      TextsConcat(before.out, [AsText(x.value, x.tokens)]);
      OneRelease(base, before.state.spot, AsText(x.value, x.tokens));
      FeedConcat(s.fence, Texts(front), x.value);
    }
  }

  // --- A call ---------------------------------------------------------------------------------------

  // The candidate after more text.
  function Longer(base: Base, h: Candidate, xs: seq<Input>): Candidate {
    h.(raw := h.raw + Texts(xs), tokens := h.tokens + TextTokens(xs),
       name := if h.place == ToolName then h.name + Texts(xs) else h.name,
       events := h.events + TextEvents(base, h.place, h.index, xs))
  }

  lemma LongerBy(base: Base, h: Candidate, xs: seq<Input>, x: Input)
    ensures Longer(base, h, xs + [x]) == Grown(base, Longer(base, h, xs), Piece(x.value, x.tokens))
  {
    assert (xs + [x])[..|xs|] == xs;
    assert h.raw + (Texts(xs) + x.value) == (h.raw + Texts(xs)) + x.value;
    assert h.name + (Texts(xs) + x.value) == (h.name + Texts(xs)) + x.value;
    var more := base.Told(h.place, h.index, x.value, x.tokens);
    assert h.events + (TextEvents(base, h.place, h.index, xs) + more) == (h.events + TextEvents(base, h.place, h.index, xs)) + more;
  }

  lemma LongerByNone(base: Base, h: Candidate)
    ensures Longer(base, h, []) == h
  {
    assert h.raw + "" == h.raw && h.name + "" == h.name && h.events + [] == h.events;
  }

  // Text in a name is held while the name stays short and on one line.
  lemma {:induction false} NameStream(base: Base, judges: Judges, s: Spot, h: Candidate, xs: seq<Input>)
    requires h.place == ToolName && AllPlain(xs) && |h.name + Texts(xs)| <= 256 && '\n' !in h.name + Texts(xs)
    ensures RunAll(base, judges, State(s, Some(h)), xs) == Stepped(State(s, Some(Longer(base, h, xs))), [])
    decreases |xs|
  {
    if xs == [] {
      LongerByNone(base, h);
    } else {
      var front, x := xs[..|xs| - 1], xs[|xs| - 1];
      assert h.name + Texts(xs) == (h.name + Texts(front)) + x.value;
      NameStream(base, judges, s, h, front);
      assert xs == front + [x];
      LongerBy(base, h, front, x);
      NameStep(base, judges, s, Longer(base, h, front), x);
      RunBehind(base, judges, State(s, Some(h)), front, State(s, Some(Longer(base, h, front))), [x]);
      RunOne(base, judges, State(s, Some(Longer(base, h, front))), x);
    }
  }

  lemma NameStep(base: Base, judges: Judges, s: Spot, h: Candidate, x: Input)
    requires h.place == ToolName && x.Plain? && |h.name + x.value| <= 256 && '\n' !in h.name + x.value
    ensures Step(base, judges, State(s, Some(h)), x) == Stepped(State(s, Some(Grown(base, h, Piece(x.value, x.tokens)))), [])
  {
  }

  // A piece of a call's arguments: text, or markup that has no transition there.
  ghost predicate ArgsPiece(base: Base, judges: Judges, x: Input) {
    x.Terminal? ==> judges.drop != Some(x.name) && (ToolArgs, x.name) !in base.transitions && x.name in judges.argsTerminals
  }

  ghost predicate ArgsPieces(base: Base, judges: Judges, raw: string, xs: seq<Input>) {
    forall i: nat | i < |xs| :: PieceAt(base, judges, raw, xs, i)
  }

  ghost predicate PieceAt(base: Base, judges: Judges, raw: string, xs: seq<Input>, i: nat)
    requires i < |xs|
  {
    ArgsPiece(base, judges, xs[i]) && judges.shapeOk(raw + Texts(xs[..i + 1]))
  }

  lemma {:induction false} ArgsStream(base: Base, judges: Judges, s: Spot, h: Candidate, xs: seq<Input>)
    requires h.place == ToolArgs && ArgsPieces(base, judges, h.raw, xs)
    ensures RunAll(base, judges, State(s, Some(h)), xs) == Stepped(State(s, Some(Longer(base, h, xs))), [])
    decreases |xs|
  {
    if xs == [] {
      LongerByNone(base, h);
    } else {
      var front, x := xs[..|xs| - 1], xs[|xs| - 1];
      PiecesBut(base, judges, h.raw, xs);
      ArgsStream(base, judges, s, h, front);
      assert xs == front + [x];
      LongerBy(base, h, front, x);
      ArgsStep(base, judges, s, Longer(base, h, front), x);
      RunBehind(base, judges, State(s, Some(h)), front, State(s, Some(Longer(base, h, front))), [x]);
      RunOne(base, judges, State(s, Some(Longer(base, h, front))), x);
    }
  }

  lemma PiecesBut(base: Base, judges: Judges, raw: string, xs: seq<Input>)
    requires xs != [] && ArgsPieces(base, judges, raw, xs)
    ensures var front, x := xs[..|xs| - 1], xs[|xs| - 1];
            ArgsPieces(base, judges, raw, front) && ArgsPiece(base, judges, x) && judges.shapeOk((raw + Texts(front)) + x.value)
  {
    var front, x := xs[..|xs| - 1], xs[|xs| - 1];
    forall i: nat | i < |front|
      ensures PieceAt(base, judges, raw, front, i)
    {
      assert front[..i + 1] == xs[..i + 1] && PieceAt(base, judges, raw, xs, i);
    }
    assert PieceAt(base, judges, raw, xs, |xs| - 1) && xs[..(|xs| - 1) + 1] == xs;
    assert raw + Texts(xs) == (raw + Texts(front)) + x.value;
  }

  lemma ArgsStep(base: Base, judges: Judges, s: Spot, h: Candidate, x: Input)
    requires h.place == ToolArgs && ArgsPiece(base, judges, x) && judges.shapeOk(h.raw + x.value)
    ensures Step(base, judges, State(s, Some(h)), x) == Stepped(State(s, Some(Grown(base, h, Piece(x.value, x.tokens)))), [])
  {
  }

  // Arguments and their closer: one call.
  lemma ClosedStream(base: Base, judges: Judges, s: Spot, h: Candidate, args: seq<Input>, closer: Input)
    requires h.place == ToolArgs && ArgsPieces(base, judges, h.raw, args) && closer.Terminal? && judges.drop != Some(closer.name)
    requires Commits(base, judges, Longer(base, h, args), closer)
    ensures var t := base.transitions[(ToolArgs, closer.name)];
      var a := base.does(Call(ToolArgs, h.index, ByTransition(t), closer.value, closer.tokens));
      RunAll(base, judges, State(s, Some(h)), args + [closer])
      == Stepped(State(Spot(a.place, a.index, s.fence, s.recovered + {a.index}), None),
                 [AsCall(Longer(base, h, args), t, closer.value, closer.tokens)])
  {
    ArgsStream(base, judges, s, h, args);
    RunBehind(base, judges, State(s, Some(h)), args, State(s, Some(Longer(base, h, args))), [closer]);
    RunOne(base, judges, State(s, Some(Longer(base, h, args))), closer);
  }

  // A stream that makes a call: what opens it, its name, what ends that, its arguments and
  // what closes it.
  datatype CallStream = CallStream(opener: Input, name: seq<Input>, nameEnd: Input, args: seq<Input>, closer: Input)
  {
    function Inputs(): seq<Input> {
      [opener] + (name + ([nameEnd] + (args + [closer])))
    }

    // Of its opener, its name and what ends that.
    function Head(): string {
      opener.value + Texts(name) + nameEnd.value
    }

    ghost predicate Ok(base: Base, judges: Judges, s: Spot) {
      && opener.Terminal? && nameEnd.Terminal? && closer.Terminal?
      && judges.drop != Some(nameEnd.name) && judges.drop != Some(closer.name)
      && OpensAt(base, judges, s, opener.name)
      && AllPlain(name) && |Texts(name)| <= 256 && '\n' !in Texts(name)
      && Opening(base, s).place == ToolName
      && (ToolName, nameEnd.name) in base.transitions
      && ArgsPieces(base, judges, Head(), args)
      && (ToolArgs, closer.name) in base.transitions && base.transitions[(ToolArgs, closer.name)].commit
    }

    // What the engine underneath does for the opener.
    ghost function Opening(base: Base, s: Spot): Applied
      requires opener.Terminal? && (s.place, opener.name) in base.transitions
    {
      base.does(Call(s.place, s.index, ByTransition(base.transitions[(s.place, opener.name)]), opener.value, opener.tokens))
    }
  }

  // The candidate when its name is to end.
  ghost function Named(base: Base, s: Spot, c: CallStream): (h: Candidate)
    requires c.opener.Terminal? && (s.place, c.opener.name) in base.transitions
  {
    var t, a := base.transitions[(s.place, c.opener.name)], c.Opening(base, s);
    Candidate(t.headless, false, a.events + TextEvents(base, a.place, a.index, c.name), c.opener.value + Texts(c.name),
              c.opener.tokens + TextTokens(c.name), Texts(c.name), a.place, a.index)
  }

  lemma NamedStream(base: Base, judges: Judges, s: Spot, c: CallStream)
    requires c.Ok(base, judges, s)
    ensures RunAll(base, judges, State(s, None), [c.opener] + c.name) == Stepped(State(s, Some(Named(base, s, c))), [])
  {
    var t, a := base.transitions[(s.place, c.opener.name)], c.Opening(base, s);
    var h := Candidate(t.headless, false, a.events, c.opener.value, c.opener.tokens, "", a.place, a.index);
    assert Step(base, judges, State(s, None), c.opener) == Stepped(State(s, Some(h)), []);
    assert "" + Texts(c.name) == Texts(c.name);
    NameStream(base, judges, s, h, c.name);
    RunOne(base, judges, State(s, None), c.opener);
    RunBehind(base, judges, State(s, None), [c.opener], State(s, Some(h)), c.name);
  }

  // What follows the name.
  lemma AfterName(base: Base, judges: Judges, s: Spot, c: CallStream, h: Candidate)
    requires c.Ok(base, judges, s) && h.place == ToolArgs && h.raw == c.Head()
    requires Step(base, judges, State(s, Some(Named(base, s, c))), c.nameEnd) == Stepped(State(s, Some(h)), [])
    requires Commits(base, judges, Longer(base, h, c.args), c.closer)
    ensures var t := base.transitions[(ToolArgs, c.closer.name)];
      var a := base.does(Call(ToolArgs, h.index, ByTransition(t), c.closer.value, c.closer.tokens));
      RunAll(base, judges, State(s, None), c.Inputs())
      == Stepped(State(Spot(a.place, a.index, s.fence, s.recovered + {a.index}), None),
                 [AsCall(Longer(base, h, c.args), t, c.closer.value, c.closer.tokens)])
  {
    NamedStream(base, judges, s, c);
    ClosedStream(base, judges, s, h, c.args, c.closer);
    SilentParts(base, judges, State(s, None), [c.opener] + c.name, State(s, Some(Named(base, s, c))), c.nameEnd, State(s, Some(h)),
                c.args + [c.closer]);
    InputsAre(c);
  }

  lemma InputsAre(c: CallStream)
    ensures c.Inputs() == ([c.opener] + c.name) + ([c.nameEnd] + (c.args + [c.closer]))
  {
  }

  // An opener, a name the validator takes, arguments of the right shape and a committing
  // closer: the stream makes exactly one call, and sends the events of the engine underneath
  // for its parts in order.
  lemma CallMade(base: Base, judges: Judges, s: Spot, c: CallStream)
    requires c.Ok(base, judges, s) && judges.nameOk(Texts(c.name))
    requires base.does(Call(ToolName, c.Opening(base, s).index, ByTransition(base.transitions[(ToolName, c.nameEnd.name)]),
                            c.nameEnd.value, c.nameEnd.tokens)).place == ToolArgs
    ensures var run := RunAll(base, judges, State(s, None), c.Inputs());
      var open := c.Opening(base, s);
      var named := base.does(Call(ToolName, open.index, ByTransition(base.transitions[(ToolName, c.nameEnd.name)]),
                                  c.nameEnd.value, c.nameEnd.tokens));
      var close := base.does(Call(ToolArgs, named.index, ByTransition(base.transitions[(ToolArgs, c.closer.name)]),
                                  c.closer.value, c.closer.tokens));
      && run.state == State(Spot(close.place, close.index, s.fence, s.recovered + {close.index}), None)
      && |run.out| == 1 && run.out[0].AsCall? && run.out[0].Value() == c.Head() + Texts(c.args) + c.closer.value
      && SendsAll(base, s, run.out)
         == open.events + TextEvents(base, ToolName, open.index, c.name) + named.events
            + TextEvents(base, ToolArgs, named.index, c.args) + close.events
  {
    var h0 := Named(base, s, c);
    var t := base.transitions[(ToolName, c.nameEnd.name)];
    var h := Grown(base, h0, NameEnd(t, c.nameEnd.value, c.nameEnd.tokens));
    assert Step(base, judges, State(s, Some(h0)), c.nameEnd) == Stepped(State(s, Some(h)), []);
    AfterName(base, judges, s, c, h);
    OneRelease(base, s, RunAll(base, judges, State(s, None), c.Inputs()).out[0]);
  }

  // With a name it refuses and a headless opener, the text so far is the first of the
  // arguments, the name's events are taken back, and the call is made if its text names a tool.
  lemma HeadlessMade(base: Base, judges: Judges, s: Spot, c: CallStream)
    requires c.Ok(base, judges, s) && !judges.nameOk(Texts(c.name))
    requires base.transitions[(s.place, c.opener.name)].headless && judges.headlessOk(c.Head())
    requires judges.toolOk(c.Head() + Texts(c.args) + c.closer.value)
    ensures var run := RunAll(base, judges, State(s, None), c.Inputs());
      var open := c.Opening(base, s);
      var close := base.does(Call(ToolArgs, open.index, ByTransition(base.transitions[(ToolArgs, c.closer.name)]),
                                  c.closer.value, c.closer.tokens));
      && run.state == State(Spot(close.place, close.index, s.fence, s.recovered + {close.index}), None)
      && |run.out| == 1 && run.out[0].AsCall? && run.out[0].Value() == c.Head() + Texts(c.args) + c.closer.value
      && SendsAll(base, s, run.out)
         == WithoutNames(open.events + TextEvents(base, ToolName, open.index, c.name)) + [Event(ArgChunk, c.Head(), open.index)]
            + TextEvents(base, ToolArgs, open.index, c.args) + close.events
  {
    var h0 := Named(base, s, c);
    var h := Grown(base, h0, Headless(c.nameEnd.value, c.nameEnd.tokens));
    assert Step(base, judges, State(s, Some(h0)), c.nameEnd) == Stepped(State(s, Some(h)), []);
    AfterName(base, judges, s, c, h);
    OneRelease(base, s, RunAll(base, judges, State(s, None), c.Inputs()).out[0]);
  }

  // WithoutNames leaves out the name events alone, and keeps the others in order.
  lemma {:induction false} WithoutNamesIs(a: seq<Event>, b: seq<Event>)
    ensures WithoutNames(a + b) == WithoutNames(a) + WithoutNames(b)
    decreases |b|
  {
    if b == [] {
      assert a + b == a && WithoutNames(a) + [] == WithoutNames(a);
    } else {
      var front, y := b[..|b| - 1], b[|b| - 1];
      WithoutNamesIs(a, front);
      NamesLast(a + front, y);
      NamesLast(front, y);
      assert a + b == (a + front) + [y] && b == front + [y];
      WithoutNameOf(y);
      Glue(WithoutNames(a), WithoutNames(front), WithoutNames([y]));
    }
  }

  lemma NamesLast(a: seq<Event>, e: Event)
    ensures WithoutNames(a + [e]) == WithoutNames(a) + WithoutNames([e])
  {
    assert (a + [e])[..|a|] == a;
    WithoutNameOf(e);
  }

  lemma WithoutNameOf(e: Event)
    ensures WithoutNames([e]) == if e.kind == NameEvent then [] else [e]
  {
    assert [e][..0] == [];
  }
}
