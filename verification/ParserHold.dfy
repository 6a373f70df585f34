// The recovering parser engine, with the fields it updates, does what HoldMachine says.
module ParserHold {
  import opened Fences
  import opened HoldMachine

  // What the engine keeps of a held candidate; where the engine underneath is meanwhile is
  // its own place and tool index.
  datatype Hold = Hold(headlessOpener: bool, headless: bool, events: seq<Event>, raw: string, tokens: nat, name: string,
                       priorPlace: Place, priorIndex: int)
  {
    function With(value: string, n: nat): Hold {
      this.(raw := raw + value, tokens := tokens + n)
    }
  }

  class Engine {
    const base: Base
    const judges: Judges
    const fences: Tracker
    var place: Place
    var index: int
    var recovered: set<int>
    var hold: Option<Hold>

    ghost predicate Valid()
      reads fences
    {
      fences.Valid()
    }

    ghost function Now(h: Hold): Candidate
      reads this
    {
      Candidate(h.headlessOpener, h.headless, h.events, h.raw, h.tokens, h.name, place, index)
    }

    ghost function Before(h: Hold): Spot
      reads this, fences
    {
      Spot(h.priorPlace, h.priorIndex, fences.Abstract(), recovered)
    }

    ghost function Here(): Spot
      reads this, fences
    {
      Spot(place, index, fences.Abstract(), recovered)
    }

    ghost function Abstract(): State
      reads this, fences
    {
      if hold.Some? then State(Before(hold.value), Some(Now(hold.value))) else State(Here(), None)
    }

    // The engine has come to this state, and sent the events of what it let go of.
    ghost predicate Did(s: Spot, step: Stepped, evs: seq<Event>)
      reads this, fences
    {
      Abstract() == step.state && evs == SendsAll(base, s, step.out)
    }

    constructor (base: Base, judges: Judges, fences: Tracker, place: Place, index: int)
      requires fences.Valid()
      ensures Valid() && this.base == base && this.judges == judges && this.fences == fences
      ensures Abstract() == State(Spot(place, index, fences.Abstract(), {}), None)
    {
      this.base, this.judges, this.fences, this.place, this.index := base, judges, fences, place, index;
      recovered, hold := {}, None;
    }

    // Text outside a candidate.
    method EmitText(value: string, n: nat) returns (evs: seq<Event>)
      requires Valid() && hold == None
      modifies fences
      ensures Valid() && Did(old(Here()), LetGo(base, old(Here()), AsText(value, n)), evs)
    {
      OneRelease(base, Here(), AsText(value, n));
      if place == Content {
        fences.Track(value);
      }
      evs := base.Told(place, index, value, n);
    }

    // _abort_hold of candidate h.
    method Abort(h: Hold) returns (evs: seq<Event>)
      requires Valid()
      modifies this`place, this`index, this`hold, fences
      ensures Valid() && hold == None && Did(old(Before(h)), GiveBack(base, old(Before(h)), old(Now(h))), evs)
    {
      OneRelease(base, Before(h), AsText(h.raw, h.tokens));
      place, index, hold := h.priorPlace, h.priorIndex, None;
      if place == Content {
        fences.Track(h.raw);
      }
      evs := base.Told(place, index, h.raw, h.tokens);
    }

    // _emit_for_state for a held candidate: it takes the text, or is given back with it.
    method EmitHeld(h0: Hold, value: string, n: nat) returns (evs: seq<Event>)
      requires Valid() && hold == Some(h0)
      modifies this`place, this`index, this`hold, fences
      ensures Valid() && Did(old(Before(h0)), GoOn(base, judges, old(Before(h0)), old(Now(h0)), Piece(value, n)), evs)
    {
      var h := h0.With(value, n);
      if place == ToolName {
        h := h.(name := h.name + value);
        if |h.name| > NAME_LIMIT || '\n' in h.name {
          evs := Abort(h);
          return;
        }
      } else if !judges.shapeOk(h.raw) {
        evs := Abort(h);
        return;
      }
      hold := Some(h.(events := h.events + base.Told(place, index, value, n)));
      evs := [];
    }

    // _begin_hold.
    method Begin(t: Transition, value: string, n: nat) returns (evs: seq<Event>)
      requires Valid() && hold == None
      modifies this`place, this`index, this`hold
      ensures Valid() && Did(old(Here()), Stepped(State(old(Here()), Some(Opened(base, old(Here()), t, value, n))), []), evs)
    {
      var a := base.Applies(place, index, t, value, n);
      hold := Some(Hold(t.headless, false, a.events, value, n, "", place, index));
      place, index := a.place, a.index;
      evs := [];
    }

    // _on_terminal outside a candidate.
    method OnFreeTerminal(terminal: string, value: string, n: nat) returns (evs: seq<Event>)
      requires Valid() && hold == None
      modifies this`place, this`index, this`hold, fences
      ensures Valid() && Did(old(Here()), FreeTerminal(base, judges, old(Here()), terminal, value, n), evs)
    {
      var t := base.Lookup(place, terminal);
      if t.Some? && (t.value.heldOnly || (t.value.provisional && fences.fence.Some? && place == Content)) {
        evs := EmitText(value, n);
        return;
      }
      if t.Some? && t.value.provisional && !judges.skipTools {
        evs := Begin(t.value, value, n);
        return;
      }
      evs := Pass(terminal, value, n);
    }

    // The engine underneath takes the terminal; text it shows goes past the fences.
    method Pass(terminal: string, value: string, n: nat) returns (evs: seq<Event>)
      requires Valid() && hold == None
      modifies this`place, this`index, fences
      ensures Valid() && Did(old(Here()), LetGo(base, old(Here()), AsTerminal(terminal, value, n)), evs)
    {
      OneRelease(base, Here(), AsTerminal(terminal, value, n));
      var a := base.Takes(place, index, terminal, value, n);
      fences.Track(a.shown);
      evs, place, index := a.events, a.place, a.index;
    }

    // A held terminal with a transition: the candidate goes on, commits, or is given back.
    method OnTransition(h0: Hold, t: Transition, value: string, n: nat) returns (evs: seq<Event>)
      requires Valid() && hold == Some(h0)
      modifies this`place, this`index, this`hold, this`recovered, fences
      ensures Valid()
      ensures Did(old(Before(h0)), HoldMachine.HeldTransition(base, judges, old(Before(h0)), old(Now(h0)), t, value, n), evs)
    {
      var h := h0.With(value, n);
      hold := Some(h);
      if place == ToolName {
        evs := OnName(h0, t, value, n);
      } else if place == ToolArgs && t.commit && (!h.headless || judges.toolOk(h.raw)) {
        evs := Commit(h0, t, value, n);
      } else {
        evs := Abort(h);
      }
    }

    // The name has ended; the candidate holds the terminal already.
    method OnName(ghost h0: Hold, t: Transition, value: string, n: nat) returns (evs: seq<Event>)
      requires Valid() && hold == Some(h0.With(value, n)) && place == ToolName
      modifies this`place, this`index, this`hold, fences
      ensures Valid()
      ensures Did(old(Before(h0)), HoldMachine.HeldTransition(base, judges, old(Before(h0)), old(Now(h0)), t, value, n), evs)
    {
      var h := hold.value;
      if judges.nameOk(h.name) {
        var a := base.Applies(place, index, t, value, n);
        hold, place, index := Some(h.(events := h.events + a.events)), a.place, a.index;
        evs := [];
      } else if h.headlessOpener && judges.headlessOk(h.raw) {
        // _continue_headless: the opener and its "name" were the first parameter.
        hold := Some(h.(events := WithoutNames(h.events) + [Event(ArgChunk, h.raw, index)], headless := true, name := ""));
        place, evs := ToolArgs, [];
      } else {
        evs := Abort(h);
      }
    }

    // The call's events leave together, with the closer's.
    method Commit(ghost h0: Hold, t: Transition, value: string, n: nat) returns (evs: seq<Event>)
      requires Valid() && hold == Some(h0.With(value, n))
      modifies this`place, this`index, this`hold, this`recovered
      ensures Valid() && Did(old(Before(h0)), LetGo(base, old(Before(h0)), AsCall(old(Now(h0)), t, value, n)), evs)
    {
      OneRelease(base, Before(h0), AsCall(Now(h0), t, value, n));
      var a := base.Applies(place, index, t, value, n);
      evs, place, index, hold := hold.value.events + a.events, a.place, a.index, None;
      recovered := recovered + {index};
    }

    // _on_held_terminal: it is dropped, decided by its transition, held on as part of the
    // arguments, or gives the candidate back and is taken outside it.
    method OnHeldTerminal(h0: Hold, terminal: string, value: string, n: nat) returns (evs: seq<Event>)
      requires Valid() && hold == Some(h0)
      modifies this`place, this`index, this`hold, this`recovered, fences
      ensures Valid()
      ensures Did(old(Before(h0)), HoldMachine.HeldTerminal(base, judges, old(Before(h0)), old(Now(h0)), terminal, value, n), evs)
    {
      if judges.drop == Some(terminal) {
        return [];
      }
      var t := base.Lookup(place, terminal);
      if t.Some? {
        evs := OnTransition(h0, t.value, value, n);
      } else if place == ToolArgs && terminal in judges.argsTerminals {
        evs := EmitHeld(h0, value, n);
      } else {
        ghost var s := Before(h0);
        evs := Abort(h0);
        ghost var out, here := [AsText(h0.raw, h0.tokens)], Here();
        var more := OnFreeTerminal(terminal, value, n);
        evs := evs + more;
        OneRelease(base, s, AsText(h0.raw, h0.tokens));
        ReleasesConcat(base, s, out, FreeTerminal(base, judges, here, terminal, value, n).out);
      }
    }

    // One input.
    method Take(x: Input) returns (evs: seq<Event>)
      requires Valid()
      modifies this`place, this`index, this`hold, this`recovered, fences
      ensures Valid() && Did(old(Abstract()).spot, Step(base, judges, old(Abstract()), x), evs)
    {
      if hold.Some? {
        match x {
          case Plain(value, n) =>
            evs := EmitHeld(hold.value, value, n);
          case Terminal(terminal, value, n) =>
            evs := OnHeldTerminal(hold.value, terminal, value, n);
        }
      } else {
        match x {
          case Plain(value, n) =>
            evs := EmitText(value, n);
          case Terminal(terminal, value, n) =>
            evs := OnFreeTerminal(terminal, value, n);
        }
      }
    }

    // A stream of inputs: the events sent are those of what was let go of, in order, and
    // that is all that was held before and came in, once and in order, up to what is held
    // at the end.
    method TakeAll(xs: seq<Input>) returns (evs: seq<Event>)
      requires Valid()
      modifies this`place, this`index, this`hold, this`recovered, fences
      ensures Valid() && Did(old(Abstract()).spot, RunAll(base, judges, old(Abstract()), xs), evs)
    {
      evs := [];
      ghost var start := Abstract();
      for i := 0 to |xs|
        invariant Valid() && Did(start.spot, RunAll(base, judges, start, xs[..i]), evs)
      {
        ghost var run := RunAll(base, judges, start, xs[..i]);
        RunVisible(base, judges, start, xs[..i]);
        var more := Take(xs[i]);
        evs := evs + more;
        RunSnoc(base, judges, start, xs, i);
        ReleasesConcat(base, start.spot, run.out, Step(base, judges, run.state, xs[i]).out);
      }
      assert xs[..|xs|] == xs;
    }

    // finish: what the scanner and the lexer still have, then the candidate if it is still
    // held, then the engine underneath ends. Nothing is held then, but for a candidate that its
    // own flush has opened.
    method Finish(rest: seq<Input>) returns (evs: seq<Event>)
      requires Valid()
      modifies this`place, this`index, this`hold, this`recovered, fences
      ensures Valid() && FinishedAs(old(Abstract()), rest, evs)
      ensures hold == None
              <==> !(old(hold) == None && base.flushes && RunAll(base, judges, old(Abstract()), rest).state.hold.Some?)
    {
      evs := [];
      ghost var start := Abstract();
      NothingHeld(base, judges, start, rest);
      if hold.Some? {
        evs := TakeAll(rest);
        if hold.Some? {
          ghost var run, h := RunAll(base, judges, start, rest), Now(hold.value);
          RunVisible(base, judges, start, rest);
          var more := Abort(hold.value);
          evs := evs + more;
          ReleasesConcat(base, start.spot, run.out, [AsText(h.raw, h.tokens)]);
        }
      } else if base.flushes {
        evs := TakeAll(rest);
      }
      evs := evs + base.Ends(place, index);
    }

    ghost predicate FinishedAs(start: State, rest: seq<Input>, evs: seq<Event>)
      reads this, fences
    {
      var end := HoldMachine.Finish(base, judges, start, rest);
      Abstract() == end.state && evs == SendsAll(base, start.spot, end.out) + base.Ends(place, index)
    }
  }
}
