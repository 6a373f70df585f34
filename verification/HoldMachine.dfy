// What a parser engine that holds tool-call candidates does, input by input, said without
// its fields: a candidate leaves no trace until all of it leaves at once, as a call or as
// the text it was.
module HoldMachine {
  import opened Fences

  datatype Place = Content | ToolName | ToolArgs | Elsewhere(n: nat)

  datatype Kind = NameEvent | ArgChunk | OtherEvent(n: nat)

  datatype Event = Event(kind: Kind, value: string, index: int)

  datatype Transition = Transition(id: nat, provisional: bool, headless: bool, commit: bool, heldOnly: bool)

  // What the engine underneath did: its events, where it is now, and the content text it
  // handed back to be shown.
  datatype Applied = Applied(events: seq<Event>, place: Place, index: int, shown: string)

  // What it is asked to do in a place: emit text, take a transition, take a terminal as it
  // stands, or end the output.
  datatype Deed = Text | ByTransition(t: Transition) | ByTerminal(name: string) | Ending

  datatype Call = Call(place: Place, index: int, deed: Deed, value: string, tokens: nat)

  // The engine underneath: its transitions, and what it does. The latter is not interpreted.
  // flushes: its own finish passes what the scanner and the lexer still have on to _on_terminal.
  datatype Base = Base(transitions: map<(Place, string), Transition>, does: Call -> Applied, flushes: bool)
  {
    function Told(place: Place, index: int, value: string, n: nat): seq<Event> {
      does(Call(place, index, Text, value, n)).events
    }

    function Applies(place: Place, index: int, t: Transition, value: string, n: nat): Applied {
      does(Call(place, index, ByTransition(t), value, n))
    }

    function Takes(place: Place, index: int, name: string, value: string, n: nat): Applied {
      does(Call(place, index, ByTerminal(name), value, n))
    }

    function Ends(place: Place, index: int): seq<Event> {
      does(Call(place, index, Ending, "", 0)).events
    }

    function Lookup(place: Place, terminal: string): Option<Transition> {
      if (place, terminal) in transitions then Some(transitions[(place, terminal)]) else None
    }
  }

  // The parser's own judgements of a candidate.
  datatype Judges = Judges(nameOk: string -> bool, headlessOk: string -> bool, toolOk: string -> bool, shapeOk: string -> bool,
                           argsTerminals: set<string>, drop: Option<string>, skipTools: bool)

  const NAME_LIMIT := 256

  // An input: a terminal with its text, or text alone, and its tokens.
  datatype Input = Terminal(name: string, value: string, tokens: nat) | Plain(value: string, tokens: nat)

  // Where the engine is when nothing is held.
  datatype Spot = Spot(place: Place, index: int, fence: Norm, recovered: set<int>)

  // A held candidate: its text and tokens so far, the events it would send, and where the
  // engine underneath would be after them.
  datatype Candidate = Candidate(headlessOpener: bool, headless: bool, events: seq<Event>, raw: string, tokens: nat, name: string,
                                 place: Place, index: int)
  {
    function With(value: string, n: nat): Candidate {
      this.(raw := raw + value, tokens := tokens + n)
    }
  }

  // The spot is the one before the candidate's opener while one is held.
  datatype State = State(spot: Spot, hold: Option<Candidate>)
  {
    function Raw(): string {
      if hold.Some? then hold.value.raw else ""
    }

    function Tokens(): nat {
      if hold.Some? then hold.value.tokens else 0
    }
  }

  // --- What leaves -------------------------------------------------------------------------

  // What the engine lets go of: text, a terminal outside a candidate, or a candidate that
  // its closer made a call.
  datatype Release =
    | AsText(text: string, n: nat)
    | AsTerminal(name: string, text: string, n: nat)
    | AsCall(h: Candidate, closer: Transition, text: string, n: nat)
  {
    function Value(): string {
      if AsCall? then h.raw + text else text
    }

    function Tokens(): nat {
      if AsCall? then h.tokens + n else n
    }
  }

  function FencedBy(s: Spot, text: string): Norm {
    if s.place == Content then Feed(s.fence, text) else s.fence
  }

  // Where a release leaves the engine, and the events it stands for.
  function After(base: Base, s: Spot, r: Release): Spot {
    match r
    case AsText(text, n) => s.(fence := FencedBy(s, text))
    case AsTerminal(name, text, n) =>
      var a := base.Takes(s.place, s.index, name, text, n);
      Spot(a.place, a.index, Feed(s.fence, a.shown), s.recovered)
    case AsCall(h, closer, text, n) =>
      var a := base.Applies(h.place, h.index, closer, text, n);
      Spot(a.place, a.index, s.fence, s.recovered + {a.index})
  }

  function Sends(base: Base, s: Spot, r: Release): seq<Event> {
    match r
    case AsText(text, n) => base.Told(s.place, s.index, text, n)
    case AsTerminal(name, text, n) => base.Takes(s.place, s.index, name, text, n).events
    case AsCall(h, closer, text, n) => h.events + base.Applies(h.place, h.index, closer, text, n).events
  }

  // A machine that holds nothing and just performs releases.
  function AfterAll(base: Base, s: Spot, out: seq<Release>): Spot {
    if out == [] then s else After(base, AfterAll(base, s, out[..|out| - 1]), out[|out| - 1])
  }

  function SendsAll(base: Base, s: Spot, out: seq<Release>): seq<Event> {
    if out == [] then []
    else SendsAll(base, s, out[..|out| - 1]) + Sends(base, AfterAll(base, s, out[..|out| - 1]), out[|out| - 1])
  }

  function Released(out: seq<Release>): string {
    if out == [] then "" else Released(out[..|out| - 1]) + out[|out| - 1].Value()
  }

  function ReleasedTokens(out: seq<Release>): nat {
    if out == [] then 0 else ReleasedTokens(out[..|out| - 1]) + out[|out| - 1].Tokens()
  }

  lemma OneRelease(base: Base, s: Spot, r: Release)
    ensures AfterAll(base, s, [r]) == After(base, s, r) && SendsAll(base, s, [r]) == Sends(base, s, r)
    ensures Released([r]) == r.Value() && ReleasedTokens([r]) == r.Tokens()
  {
    assert [r][..0] == [];
  }

  lemma {:induction false} ReleasesConcat(base: Base, s: Spot, a: seq<Release>, b: seq<Release>)
    ensures AfterAll(base, s, a + b) == AfterAll(base, AfterAll(base, s, a), b)
    ensures SendsAll(base, s, a + b) == SendsAll(base, s, a) + SendsAll(base, AfterAll(base, s, a), b)
    decreases |b|
  {
    if b == [] {
      assert a + b == a;
    } else {
      ReleasesConcat(base, s, a, b[..|b| - 1]);
      LastRelease(base, s, a, b);
      LastRelease(base, AfterAll(base, s, a), [], b);
      Glue(SendsAll(base, s, a), SendsAll(base, AfterAll(base, s, a), b[..|b| - 1]),
           Sends(base, AfterAll(base, s, a + b[..|b| - 1]), b[|b| - 1]));
    }
  }

  lemma Glue(a: seq<Event>, b: seq<Event>, c: seq<Event>)
    ensures (a + b) + c == a + (b + c)
  {
  }

  lemma LastRelease(base: Base, s: Spot, a: seq<Release>, b: seq<Release>)
    requires b != []
    ensures var front, r := a + b[..|b| - 1], b[|b| - 1];
            AfterAll(base, s, a + b) == After(base, AfterAll(base, s, front), r)
            && SendsAll(base, s, a + b) == SendsAll(base, s, front) + Sends(base, AfterAll(base, s, front), r)
  {
    assert (a + b)[..|a + b| - 1] == a + b[..|b| - 1] && (a + b)[|a + b| - 1] == b[|b| - 1];
  }

  lemma {:induction false} TextsConcat(a: seq<Release>, b: seq<Release>)
    ensures Released(a + b) == Released(a) + Released(b) && ReleasedTokens(a + b) == ReleasedTokens(a) + ReleasedTokens(b)
    decreases |b|
  {
    if b == [] {
      assert a + b == a;
    } else {
      TextsConcat(a, b[..|b| - 1]);
      LastText(a, b);
      LastText([], b);
      assert [] + b == b && [] + b[..|b| - 1] == b[..|b| - 1];
      GlueText(Released(a), Released(b[..|b| - 1]), b[|b| - 1].Value());
    }
  }

  lemma LastText(a: seq<Release>, b: seq<Release>)
    requires b != []
    ensures var front, r := a + b[..|b| - 1], b[|b| - 1];
            Released(a + b) == Released(front) + r.Value() && ReleasedTokens(a + b) == ReleasedTokens(front) + r.Tokens()
  {
    assert (a + b)[..|a + b| - 1] == a + b[..|b| - 1] && (a + b)[|a + b| - 1] == b[|b| - 1];
  }

  lemma GlueText(a: string, b: string, c: string)
    ensures (a + b) + c == a + (b + c)
  {
  }

  // --- How a candidate grows -----------------------------------------------------------------

  // What a candidate is made of: its opener, text, the end of its name, and the end of a
  // name that was a headless call's first parameter.
  datatype Move =
    | Opener(t: Transition, value: string, tokens: nat)
    | Piece(value: string, tokens: nat)
    | NameEnd(t: Transition, value: string, tokens: nat)
    | Headless(value: string, tokens: nat)

  function WithoutNames(events: seq<Event>): seq<Event> {
    if events == [] then []
    else WithoutNames(events[..|events| - 1]) + (if events[|events| - 1].kind == NameEvent then [] else [events[|events| - 1]])
  }

  function Opened(base: Base, s: Spot, t: Transition, value: string, n: nat): Candidate {
    var a := base.Applies(s.place, s.index, t, value, n);
    Candidate(t.headless, false, a.events, value, n, "", a.place, a.index)
  }

  function Grown(base: Base, h: Candidate, m: Move): Candidate {
    var more := h.With(m.value, m.tokens);
    match m
    case Opener(t, value, n) => more
    case Piece(value, n) =>
      more.(name := if h.place == ToolName then h.name + value else h.name,
            events := h.events + base.Told(h.place, h.index, value, n))
    case NameEnd(t, value, n) =>
      var a := base.Applies(h.place, h.index, t, value, n);
      more.(events := h.events + a.events, place := a.place, index := a.index)
    case Headless(value, n) =>
      more.(events := WithoutNames(h.events) + [Event(ArgChunk, more.raw, h.index)], headless := true, name := "", place := ToolArgs)
  }

  // When a candidate may go on so: a name stays short and on one line, arguments keep their
  // shape, and a name ends only as a name or as a headless call's first parameter.
  predicate MayGrow(judges: Judges, h: Candidate, m: Move) {
    match m
    case Opener(t, value, n) => false
    case Piece(value, n) =>
      if h.place == ToolName then |h.name + value| <= NAME_LIMIT && '\n' !in h.name + value else judges.shapeOk(h.raw + value)
    case NameEnd(t, value, n) => h.place == ToolName && judges.nameOk(h.name)
    case Headless(value, n) =>
      h.place == ToolName && !judges.nameOk(h.name) && h.headlessOpener && judges.headlessOk(h.raw + value)
  }

  // A candidate opens by a provisional transition, and never inside a code fence of the
  // content.
  predicate MayOpen(judges: Judges, s: Spot, t: Transition) {
    t.provisional && !t.heldOnly && !judges.skipTools && (s.fence.fence.Some? ==> s.place != Content)
  }

  // And becomes a call by a committing transition at the end of its arguments; a headless
  // one only if it names a tool.
  predicate MayCommit(judges: Judges, h: Candidate, t: Transition, value: string) {
    h.place == ToolArgs && t.commit && (h.headless ==> judges.toolOk(h.raw + value))
  }

  // --- One input -----------------------------------------------------------------------------

  datatype Stepped = Stepped(state: State, out: seq<Release>)

  function LetGo(base: Base, s: Spot, r: Release): Stepped {
    Stepped(State(After(base, s, r), None), [r])
  }

  function GiveBack(base: Base, s: Spot, h: Candidate): Stepped {
    LetGo(base, s, AsText(h.raw, h.tokens))
  }

  function GoOn(base: Base, judges: Judges, s: Spot, h: Candidate, m: Move): Stepped {
    if MayGrow(judges, h, m) then Stepped(State(s, Some(Grown(base, h, m))), []) else GiveBack(base, s, h.With(m.value, m.tokens))
  }

  function FreeTerminal(base: Base, judges: Judges, s: Spot, name: string, value: string, n: nat): Stepped {
    var t := base.Lookup(s.place, name);
    if t.Some? && (t.value.heldOnly || (t.value.provisional && s.fence.fence.Some? && s.place == Content)) then
      LetGo(base, s, AsText(value, n))
    else if t.Some? && MayOpen(judges, s, t.value) then Stepped(State(s, Some(Opened(base, s, t.value, value, n))), [])
    else LetGo(base, s, AsTerminal(name, value, n))
  }

  function HeldTransition(base: Base, judges: Judges, s: Spot, h: Candidate, t: Transition, value: string, n: nat): Stepped {
    if h.place == ToolName then
      GoOn(base, judges, s, h, if judges.nameOk(h.name) then NameEnd(t, value, n) else Headless(value, n))
    else if MayCommit(judges, h, t, value) then LetGo(base, s, AsCall(h, t, value, n))
    else GiveBack(base, s, h.With(value, n))
  }

  function HeldTerminal(base: Base, judges: Judges, s: Spot, h: Candidate, name: string, value: string, n: nat): Stepped {
    var t := base.Lookup(h.place, name);
    if judges.drop == Some(name) then Stepped(State(s, Some(h)), [])
    else if t.Some? then HeldTransition(base, judges, s, h, t.value, value, n)
    else if h.place == ToolArgs && name in judges.argsTerminals then GoOn(base, judges, s, h, Piece(value, n))
    else
      var back := GiveBack(base, s, h);
      var free := FreeTerminal(base, judges, back.state.spot, name, value, n);
      Stepped(free.state, back.out + free.out)
  }

  function Step(base: Base, judges: Judges, st: State, x: Input): Stepped {
    match (st.hold, x)
    case (None, Plain(value, n)) => LetGo(base, st.spot, AsText(value, n))
    case (None, Terminal(name, value, n)) => FreeTerminal(base, judges, st.spot, name, value, n)
    case (Some(h), Plain(value, n)) => GoOn(base, judges, st.spot, h, Piece(value, n))
    case (Some(h), Terminal(name, value, n)) => HeldTerminal(base, judges, st.spot, h, name, value, n)
  }

  // A dropped terminal does not enter a candidate.
  predicate Dropped(judges: Judges, st: State, x: Input) {
    x.Terminal? && st.hold.Some? && judges.drop == Some(x.name)
  }

  // --- Whole runs ------------------------------------------------------------------------------

  function RunAll(base: Base, judges: Judges, st: State, xs: seq<Input>): Stepped {
    if xs == [] then Stepped(st, [])
    else
      var before := RunAll(base, judges, st, xs[..|xs| - 1]);
      var step := Step(base, judges, before.state, xs[|xs| - 1]);
      Stepped(step.state, before.out + step.out)
  }

  // The text and tokens that came in, dropped terminals aside.
  function Given(base: Base, judges: Judges, st: State, xs: seq<Input>): string {
    if xs == [] then ""
    else
      var before, x := xs[..|xs| - 1], xs[|xs| - 1];
      Given(base, judges, st, before) + (if Dropped(judges, RunAll(base, judges, st, before).state, x) then "" else x.value)
  }

  function GivenTokens(base: Base, judges: Judges, st: State, xs: seq<Input>): nat {
    if xs == [] then 0
    else
      var before, x := xs[..|xs| - 1], xs[|xs| - 1];
      GivenTokens(base, judges, st, before) + (if Dropped(judges, RunAll(base, judges, st, before).state, x) then 0 else x.tokens)
  }

  ghost predicate Visible(base: Base, s: Spot, step: Stepped) {
    step.state.spot == AfterAll(base, s, step.out)
  }

  // A held candidate leaves no trace: place, tool index, fences and recovered calls are
  // those of the releases alone.
  lemma StepVisible(base: Base, judges: Judges, st: State, x: Input)
    ensures Visible(base, st.spot, Step(base, judges, st, x))
  {
    var s, step := st.spot, Step(base, judges, st, x);
    if |step.out| == 1 {
      OneVisible(base, s, step);
    } else if |step.out| == 2 {
      AfreshVisible(base, judges, s, st.hold.value, x);
    }
  }

  lemma AfreshVisible(base: Base, judges: Judges, s: Spot, h: Candidate, x: Input)
    requires x.Terminal?
    requires |FreeTerminal(base, judges, GiveBack(base, s, h).state.spot, x.name, x.value, x.tokens).out| == 1
    ensures var back := GiveBack(base, s, h);
            var free := FreeTerminal(base, judges, back.state.spot, x.name, x.value, x.tokens);
            Visible(base, s, Stepped(free.state, back.out + free.out))
  {
    var back := GiveBack(base, s, h);
    var free := FreeTerminal(base, judges, back.state.spot, x.name, x.value, x.tokens);
    OneVisible(base, s, back);
    OneVisible(base, back.state.spot, free);
    ReleasesConcat(base, s, back.out, free.out);
  }

  lemma OneVisible(base: Base, s: Spot, step: Stepped)
    requires |step.out| == 1 && step.state.spot == After(base, s, step.out[0])
    ensures Visible(base, s, step)
  {
    OneRelease(base, s, step.out[0]);
    assert step.out == [step.out[0]];
  }

  lemma {:induction false} RunVisible(base: Base, judges: Judges, st: State, xs: seq<Input>)
    ensures var run := RunAll(base, judges, st, xs);
            run.state.spot == AfterAll(base, st.spot, run.out)
    decreases |xs|
  {
    if xs != [] {
      var before := RunAll(base, judges, st, xs[..|xs| - 1]);
      RunVisible(base, judges, st, xs[..|xs| - 1]);
      StepVisible(base, judges, before.state, xs[|xs| - 1]);
      ReleasesConcat(base, st.spot, before.out, Step(base, judges, before.state, xs[|xs| - 1]).out);
    }
  }

  // What came in, on top of what was held, is what a step lets go of and what it holds.
  ghost predicate Balances(raw: string, tokens: nat, step: Stepped) {
    raw == Released(step.out) + step.state.Raw() && tokens == ReleasedTokens(step.out) + step.state.Tokens()
  }

  lemma LetGoBalances(base: Base, s: Spot, r: Release)
    ensures Balances(r.Value(), r.Tokens(), LetGo(base, s, r))
  {
    OneRelease(base, s, r);
    assert Released([r]) + "" == r.Value();
  }

  lemma HoldBalances(s: Spot, h: Candidate)
    ensures Balances(h.raw, h.tokens, Stepped(State(s, Some(h)), []))
  {
    assert Released([]) + h.raw == h.raw;
  }

  lemma FreeBalances(base: Base, judges: Judges, s: Spot, name: string, value: string, n: nat)
    ensures Balances(value, n, FreeTerminal(base, judges, s, name, value, n))
  {
    LetGoBalances(base, s, AsText(value, n));
    LetGoBalances(base, s, AsTerminal(name, value, n));
    var t := base.Lookup(s.place, name);
    if t.Some? {
      HoldBalances(s, Opened(base, s, t.value, value, n));
    }
  }

  lemma GoOnBalances(base: Base, judges: Judges, s: Spot, h: Candidate, m: Move)
    ensures Balances(h.raw + m.value, h.tokens + m.tokens, GoOn(base, judges, s, h, m))
  {
    LetGoBalances(base, s, AsText(h.raw + m.value, h.tokens + m.tokens));
    HoldBalances(s, Grown(base, h, m));
  }

  lemma AfreshBalances(base: Base, judges: Judges, s: Spot, h: Candidate, name: string, value: string, n: nat)
    ensures var back := GiveBack(base, s, h);
            var free := FreeTerminal(base, judges, back.state.spot, name, value, n);
            Balances(h.raw + value, h.tokens + n, Stepped(free.state, back.out + free.out))
  {
    var back := GiveBack(base, s, h);
    var free := FreeTerminal(base, judges, back.state.spot, name, value, n);
    OneRelease(base, s, AsText(h.raw, h.tokens));
    FreeBalances(base, judges, back.state.spot, name, value, n);
    TextsConcat(back.out, free.out);
    assert h.raw + (Released(free.out) + free.state.Raw()) == (h.raw + Released(free.out)) + free.state.Raw();
  }

  lemma TransitionBalances(base: Base, judges: Judges, s: Spot, h: Candidate, t: Transition, value: string, n: nat)
    ensures Balances(h.raw + value, h.tokens + n, HeldTransition(base, judges, s, h, t, value, n))
  {
    GoOnBalances(base, judges, s, h, NameEnd(t, value, n));
    GoOnBalances(base, judges, s, h, Headless(value, n));
    LetGoBalances(base, s, AsCall(h, t, value, n));
    LetGoBalances(base, s, AsText(h.raw + value, h.tokens + n));
  }

  // What one input lets go of is what was held and the input, in order and once.
  lemma StepBalances(base: Base, judges: Judges, st: State, x: Input)
    ensures if Dropped(judges, st, x) then Step(base, judges, st, x) == Stepped(st, [])
            else Balances(st.Raw() + x.value, st.Tokens() + x.tokens, Step(base, judges, st, x))
  {
    assert "" + x.value == x.value;
    match (st.hold, x)
    case (None, Plain(value, n)) =>
      LetGoBalances(base, st.spot, AsText(value, n));
    case (None, Terminal(name, value, n)) =>
      FreeBalances(base, judges, st.spot, name, value, n);
    case (Some(h), Plain(value, n)) =>
      GoOnBalances(base, judges, st.spot, h, Piece(value, n));
    case (Some(h), Terminal(name, value, n)) =>
      GoOnBalances(base, judges, st.spot, h, Piece(value, n));
      AfreshBalances(base, judges, st.spot, h, name, value, n);
      var t := base.Lookup(h.place, name);
      if t.Some? {
        TransitionBalances(base, judges, st.spot, h, t.value, value, n);
      }
  }

  lemma {:induction false} RunBalances(base: Base, judges: Judges, st: State, xs: seq<Input>)
    ensures var run := RunAll(base, judges, st, xs);
            st.Raw() + Given(base, judges, st, xs) == Released(run.out) + run.state.Raw()
            && st.Tokens() + GivenTokens(base, judges, st, xs) == ReleasedTokens(run.out) + run.state.Tokens()
    decreases |xs|
  {
    if xs == [] {
      assert st.Raw() + "" == st.Raw() == "" + st.Raw();
    } else {
      var front, x := xs[..|xs| - 1], xs[|xs| - 1];
      var before := RunAll(base, judges, st, front);
      var step := Step(base, judges, before.state, x);
      var value := if Dropped(judges, before.state, x) then "" else x.value;
      RunBalances(base, judges, st, front);
      StepBalances(base, judges, before.state, x);
      TextsConcat(before.out, step.out);
      assert before.state.Raw() + "" == Released([]) + before.state.Raw();
      Regroup(st.Raw(), Given(base, judges, st, front), value, Released(before.out), before.state.Raw(), Released(step.out), step.state.Raw());
    }
  }

  lemma Regroup(held: string, given: string, value: string, left: string, before: string, leaves: string, after: string)
    requires held + given == left + before && before + value == leaves + after
    ensures held + (given + value) == (left + leaves) + after
  {
    assert held + (given + value) == (held + given) + value;
    assert (left + before) + value == left + (before + value);
    assert left + (leaves + after) == (left + leaves) + after;
  }

  // --- What a call is made of --------------------------------------------------------------------

  // The candidate that moves make from a spot.
  function Made(base: Base, s: Spot, moves: seq<Move>): Candidate
    requires |moves| > 0 && moves[0].Opener?
    decreases |moves|
  {
    if |moves| == 1 then Opened(base, s, moves[0].t, moves[0].value, moves[0].tokens)
    else Grown(base, Made(base, s, moves[..|moves| - 1]), moves[|moves| - 1])
  }

  ghost predicate AllowedMoves(base: Base, judges: Judges, s: Spot, moves: seq<Move>) {
    && |moves| > 0 && moves[0].Opener? && MayOpen(judges, s, moves[0].t)
    && forall i | 1 <= i < |moves| :: AllowedMove(base, judges, s, moves, i)
  }

  ghost predicate AllowedMove(base: Base, judges: Judges, s: Spot, moves: seq<Move>, i: nat)
    requires |moves| > 0 && moves[0].Opener? && 1 <= i < |moves|
  {
    MayGrow(judges, Made(base, s, moves[..i]), moves[i])
  }

  // The candidate was made from this spot by allowed moves.
  ghost predicate MadeHere(base: Base, judges: Judges, s: Spot, h: Candidate) {
    exists moves :: AllowedMoves(base, judges, s, moves) && Made(base, s, moves) == h
  }

  ghost predicate HeldOk(base: Base, judges: Judges, st: State) {
    st.hold.Some? ==> MadeHere(base, judges, st.spot, st.hold.value)
  }

  // A release that is a call: made from here, and allowed to commit.
  ghost predicate ReleaseOk(base: Base, judges: Judges, s: Spot, r: Release) {
    r.AsCall? ==> MadeHere(base, judges, s, r.h) && MayCommit(judges, r.h, r.closer, r.text)
  }

  lemma OpenedHere(base: Base, judges: Judges, s: Spot, t: Transition, value: string, n: nat)
    requires MayOpen(judges, s, t)
    ensures MadeHere(base, judges, s, Opened(base, s, t, value, n))
  {
    var moves := [Opener(t, value, n)];
    assert AllowedMoves(base, judges, s, moves) && Made(base, s, moves) == Opened(base, s, t, value, n);
  }

  lemma GrownHere(base: Base, judges: Judges, s: Spot, h: Candidate, m: Move)
    requires MadeHere(base, judges, s, h) && MayGrow(judges, h, m)
    ensures MadeHere(base, judges, s, Grown(base, h, m))
  {
    var moves :| AllowedMoves(base, judges, s, moves) && Made(base, s, moves) == h;
    var more := moves + [m];
    assert more[..|moves|] == moves;
    forall i | 1 <= i < |more|
      ensures AllowedMove(base, judges, s, more, i)
    {
      if i < |moves| {
        assert AllowedMove(base, judges, s, moves, i) && more[..i] == moves[..i];
      }
    }
    assert AllowedMoves(base, judges, s, more) && Made(base, s, more) == Grown(base, h, m);
  }

  // A call leaves only as a whole candidate that was allowed to commit.
  lemma StepOk(base: Base, judges: Judges, st: State, x: Input)
    requires HeldOk(base, judges, st)
    ensures var step := Step(base, judges, st, x);
            HeldOk(base, judges, step.state)
            && forall i | 0 <= i < |step.out| :: ReleaseOk(base, judges, AfterAll(base, st.spot, step.out[..i]), step.out[i])
  {
    var step := Step(base, judges, st, x);
    forall i | 0 <= i < |step.out|
      ensures ReleaseOk(base, judges, AfterAll(base, st.spot, step.out[..i]), step.out[i])
    {
      if step.out[i].AsCall? {
        CallAlone(base, judges, st, x, i);
        assert step.out[..0] == [];
      }
    }
    if step.state.hold.Some? && step.state != st {
      HoldFrom(base, judges, st, x);
    }
  }

  // A call leaves alone, and it is the held candidate.
  lemma CallAlone(base: Base, judges: Judges, st: State, x: Input, i: nat)
    requires var out := Step(base, judges, st, x).out; i < |out| && out[i].AsCall?
    ensures var r := Step(base, judges, st, x).out[i];
            i == 0 && st.hold == Some(r.h) && MayCommit(judges, r.h, r.closer, r.text)
  {
  }

  lemma HoldFrom(base: Base, judges: Judges, st: State, x: Input)
    requires HeldOk(base, judges, st)
    requires var step := Step(base, judges, st, x); step.state.hold.Some? && step.state != st
    ensures HeldOk(base, judges, Step(base, judges, st, x).state)
  {
    var step := Step(base, judges, st, x);
    if st.hold.Some? && step.out == [] {
      var h := st.hold.value;
      var m := if x.Plain? || base.Lookup(h.place, x.name).None? then Piece(x.value, x.tokens)
               else if judges.nameOk(h.name) then NameEnd(base.Lookup(h.place, x.name).value, x.value, x.tokens)
               else Headless(x.value, x.tokens);
      GrownHere(base, judges, st.spot, h, m);
    } else {
      var t := base.Lookup(step.state.spot.place, x.name);
      OpenedHere(base, judges, step.state.spot, t.value, x.value, x.tokens);
    }
  }

  lemma {:induction false} RunOk(base: Base, judges: Judges, st: State, xs: seq<Input>)
    requires HeldOk(base, judges, st)
    ensures var run := RunAll(base, judges, st, xs);
            HeldOk(base, judges, run.state)
            && forall i | 0 <= i < |run.out| :: ReleaseOk(base, judges, AfterAll(base, st.spot, run.out[..i]), run.out[i])
    decreases |xs|
  {
    if xs != [] {
      var before := RunAll(base, judges, st, xs[..|xs| - 1]);
      var step := Step(base, judges, before.state, xs[|xs| - 1]);
      RunOk(base, judges, st, xs[..|xs| - 1]);
      RunVisible(base, judges, st, xs[..|xs| - 1]);
      StepOk(base, judges, before.state, xs[|xs| - 1]);
      AllReleasesOk(base, judges, st.spot, before.out, step.out);
    }
  }

  lemma AllReleasesOk(base: Base, judges: Judges, s: Spot, a: seq<Release>, b: seq<Release>)
    requires forall i | 0 <= i < |a| :: ReleaseOk(base, judges, AfterAll(base, s, a[..i]), a[i])
    requires forall i | 0 <= i < |b| :: ReleaseOk(base, judges, AfterAll(base, AfterAll(base, s, a), b[..i]), b[i])
    ensures forall i | 0 <= i < |a + b| :: ReleaseOk(base, judges, AfterAll(base, s, (a + b)[..i]), (a + b)[i])
  {
    forall i | 0 <= i < |a + b|
      ensures ReleaseOk(base, judges, AfterAll(base, s, (a + b)[..i]), (a + b)[i])
    {
      if i < |a| {
        assert (a + b)[..i] == a[..i];
      } else {
        assert (a + b)[..i] == a + b[..i - |a|];
        ReleasesConcat(base, s, a, b[..i - |a|]);
      }
    }
  }

  // While a candidate is held nothing leaves: an input is held too, or everything held
  // leaves first, as one text or one call.
  lemma HeldLeavesWhole(base: Base, judges: Judges, st: State, x: Input)
    requires st.hold.Some?
    ensures var h, step := st.hold.value, Step(base, judges, st, x);
            || (step.out == [] && step.state.hold.Some? && step.state.spot == st.spot
                && (step.state.hold == st.hold || (step.state.Raw() == h.raw + x.value && step.state.Tokens() == h.tokens + x.tokens)))
            || (|step.out| > 0
                && (step.out[0] == AsText(h.raw, h.tokens) || step.out[0] == AsText(h.raw + x.value, h.tokens + x.tokens)
                    || (step.out[0].AsCall? && step.out[0].h == h && step.out[0].text == x.value)))
  {
  }

  // The end: a held candidate is given back after what the scanner and the lexer still have;
  // with nothing held that rest is the engine underneath's to pass on.
  function Finish(base: Base, judges: Judges, start: State, rest: seq<Input>): Stepped {
    if start.hold.None? && !base.flushes then Stepped(start, [])
    else
      var run := RunAll(base, judges, start, rest);
      if start.hold.Some? && run.state.hold.Some? then
        var back := GiveBack(base, run.state.spot, run.state.hold.value);
        Stepped(back.state, run.out + back.out)
      else run
  }

  // Nothing is held after the end, unless the rest opens a candidate that nothing gives back.
  lemma NothingHeld(base: Base, judges: Judges, start: State, rest: seq<Input>)
    ensures Finish(base, judges, start, rest).state.hold == None
            <==> !(start.hold.None? && base.flushes && RunAll(base, judges, start, rest).state.hold.Some?)
  {
  }

  // An opener in that rest is such a candidate: its text leaves neither as text nor as a call.
  lemma OpenerAtEnd(base: Base, judges: Judges, s: Spot, name: string, value: string, n: nat)
    requires base.flushes && base.Lookup(s.place, name).Some? && MayOpen(judges, s, base.Lookup(s.place, name).value)
    ensures var end := Finish(base, judges, State(s, None), [Terminal(name, value, n)]);
            end.out == [] && end.state.hold.Some? && end.state.hold.value.raw == value
  {
    var x := Terminal(name, value, n);
    RunOne(base, judges, State(s, None), x);
    assert Step(base, judges, State(s, None), x)
           == Stepped(State(s, Some(Opened(base, s, base.Lookup(s.place, name).value, value, n))), []);
  }

  lemma RunOne(base: Base, judges: Judges, st: State, x: Input)
    ensures RunAll(base, judges, st, [x]) == Step(base, judges, st, x)
  {
    assert [x][..0] == [];
    assert RunAll(base, judges, st, []) == Stepped(st, []);
    assert [] + Step(base, judges, st, x).out == Step(base, judges, st, x).out;
  }

  lemma FinishVisible(base: Base, judges: Judges, start: State, rest: seq<Input>)
    ensures Visible(base, start.spot, Finish(base, judges, start, rest))
  {
    var run := RunAll(base, judges, start, rest);
    RunVisible(base, judges, start, rest);
    if start.hold.Some? && run.state.hold.Some? {
      var h := run.state.hold.value;
      OneRelease(base, run.state.spot, AsText(h.raw, h.tokens));
      ReleasesConcat(base, start.spot, run.out, [AsText(h.raw, h.tokens)]);
    }
  }

  lemma RunSnoc(base: Base, judges: Judges, st: State, xs: seq<Input>, i: nat)
    requires i < |xs|
    ensures var before := RunAll(base, judges, st, xs[..i]);
            var step := Step(base, judges, before.state, xs[i]);
            RunAll(base, judges, st, xs[..i + 1]) == Stepped(step.state, before.out + step.out)
  {
    assert xs[..i + 1][..i] == xs[..i];
  }

  // A whole parse, its end included: all that came in has been let go of, once, in order, with
  // its tokens, but for what such a candidate holds.
  lemma NothingStays(base: Base, judges: Judges, spot: Spot, xs: seq<Input>, rest: seq<Input>)
    ensures var start := State(spot, None);
            var run := RunAll(base, judges, start, xs);
            var end := Finish(base, judges, run.state, rest);
            var more := if run.state.hold.Some? || base.flushes then rest else [];
            Released(run.out + end.out) + end.state.Raw() == Given(base, judges, start, xs) + Given(base, judges, run.state, more)
            && ReleasedTokens(run.out + end.out) + end.state.Tokens()
               == GivenTokens(base, judges, start, xs) + GivenTokens(base, judges, run.state, more)
  {
    var start := State(spot, None);
    var run := RunAll(base, judges, start, xs);
    var end := Finish(base, judges, run.state, rest);
    var more := if run.state.hold.Some? || base.flushes then rest else [];
    RunBalances(base, judges, start, xs);
    FinishBalances(base, judges, run.state, rest);
    TextsConcat(run.out, end.out);
    Between(Given(base, judges, start, xs), Released(run.out), run.state.Raw(), Given(base, judges, run.state, more),
            Released(end.out), end.state.Raw());
  }

  lemma Between(given: string, left: string, held: string, rest: string, leaves: string, holds: string)
    requires "" + given == left + held && held + rest == leaves + holds
    ensures (left + leaves) + holds == given + rest
  {
    assert "" + given == given;
    assert (left + leaves) + holds == left + (leaves + holds);
    assert left + (held + rest) == (left + held) + rest;
  }

  lemma FinishBalances(base: Base, judges: Judges, st: State, rest: seq<Input>)
    ensures var end := Finish(base, judges, st, rest);
            var more := if st.hold.Some? || base.flushes then rest else [];
            st.Raw() + Given(base, judges, st, more) == Released(end.out) + end.state.Raw()
            && st.Tokens() + GivenTokens(base, judges, st, more) == ReleasedTokens(end.out) + end.state.Tokens()
  {
    var run := RunAll(base, judges, st, rest);
    RunBalances(base, judges, st, rest);
    if st.hold.Some? && run.state.hold.Some? {
      var last := AsText(run.state.hold.value.raw, run.state.hold.value.tokens);
      OneRelease(base, st.spot, last);
      TextsConcat(run.out, [last]);
      assert Released(run.out + [last]) + "" == Released(run.out + [last]);
    }
  }
}
