// Markdown code fences followed through content text as it arrives in pieces. A fence
// line is one of section 4.5 of the CommonMark Spec (fenced code blocks).
module Fences {

  datatype Option<T> = None | Some(value: T)

  // The open fence: its character and the length of its run.
  datatype Fence = Fence(mark: char, run: nat)

  // --- Line pieces ---------------------------------------------------------------------

  // How many characters at the front of s are c.
  function Run(s: string, c: char): (n: nat)
    ensures n <= |s| && (forall i | 0 <= i < n :: s[i] == c) && (n < |s| ==> s[n] != c)
  {
    if s == "" || s[0] != c then 0 else 1 + Run(s[1..], c)
  }

  lemma {:induction false} RunIs(s: string, c: char, n: nat)
    requires n <= |s| && (forall i | 0 <= i < n :: s[i] == c) && (n < |s| ==> s[n] != c)
    ensures Run(s, c) == n
  {
  }

  lemma RunAtLeast(s: string, c: char, n: nat)
    requires n <= |s| && forall i | 0 <= i < n :: s[i] == c
    ensures n <= Run(s, c)
  {
  }

  // White space as Python's str.strip sees it.
  predicate IsSpace(c: char) {
    var x := c as int;
    9 <= x <= 13 || 28 <= x <= 32 || x == 0x85 || x == 0xA0 || x == 0x1680 || 0x2000 <= x <= 0x200A
    || x == 0x2028 || x == 0x2029 || x == 0x202F || x == 0x205F || x == 0x3000
  }

  predicate Blank(s: string) {
    forall i | 0 <= i < |s| :: IsSpace(s[i])
  }

  // A line's head: what follows its leading spaces.
  function Head(line: string): string {
    line[Run(line, ' ')..]
  }

  // The head's fence run and what follows it.
  function FenceRun(line: string): (n: nat)
    requires Head(line) != ""
    ensures n <= |Head(line)|
  {
    Run(Head(line), Head(line)[0])
  }

  function Rest(line: string): string
    requires Head(line) != ""
  {
    Head(line)[FenceRun(line)..]
  }

  // --- The classification as the program makes it ------------------------------------------

  // Undecided, or decided with the fence open from then on.
  datatype Verdict = Wait | Decided(fence: Option<Fence>)

  function Classify(fence: Option<Fence>, line: string, ended: bool): Verdict {
    var head := Head(line);
    if |line| - |head| > 3 || (head != "" && head[0] != '`' && head[0] != '~') then Decided(fence)
    else if head == "" then Wait
    else
      var mark, run, rest := head[0], FenceRun(line), Rest(line);
      if rest == "" && !ended then Wait
      else if run < 3 then Decided(fence)
      else match fence
        case None =>
          if mark == '`' && !ended then Wait
          else if mark == '`' && '`' in rest then Decided(None)
          else Decided(Some(Fence(mark, run)))
        case Some(f) =>
          if mark != f.mark || run < f.run || !Blank(rest) then Decided(fence)
          else if ended then Decided(None)
          else Wait
  }

  // --- The rule, said once for whole lines ---------------------------------------------------

  ghost predicate Parts(line: string, spaces: nat, mark: char, run: nat, rest: string) {
    && spaces + run + |rest| == |line|
    && (forall i | 0 <= i < spaces :: line[i] == ' ')
    && (forall i | spaces <= i < spaces + run :: line[i] == mark)
    && rest == line[spaces + run..]
    && (rest != "" ==> rest[0] != mark)
  }

  // An opening line: up to three spaces, three or more backticks or tildes, and an info
  // string, without a backtick after backticks.
  ghost predicate Opens(line: string, f: Fence) {
    exists spaces: nat, rest :: spaces <= 3 && Parts(line, spaces, f.mark, f.run, rest) && 3 <= f.run
      && (f.mark == '`' || f.mark == '~') && (f.mark == '`' ==> '`' !in rest)
  }

  // A closing line: up to three spaces, a run of the fence's character at least as long,
  // and nothing else but white space.
  ghost predicate Closes(line: string, f: Fence) {
    exists spaces: nat, run: nat, rest :: spaces <= 3 && Parts(line, spaces, f.mark, run, rest)
      && f.run <= run && Blank(rest)
  }

  // A fence as an opening line leaves it.
  ghost predicate FenceOk(fence: Option<Fence>) {
    fence.Some? ==> 3 <= fence.value.run && (fence.value.mark == '`' || fence.value.mark == '~')
  }

  // What a whole line does to the open fence.
  ghost predicate LineRule(before: Option<Fence>, line: string, after: Option<Fence>) {
    match before
    case None => if exists f :: Opens(line, f) then after.Some? && Opens(line, after.value) else after == None
    case Some(f) => after == if Closes(line, f) then None else before
  }

  lemma PartsAre(line: string, spaces: nat, mark: char, run: nat, rest: string)
    requires Parts(line, spaces, mark, run, rest) && mark != ' ' && 0 < run
    ensures spaces == Run(line, ' ') && Head(line) != "" && Head(line)[0] == mark && run == FenceRun(line) && rest == Rest(line)
  {
    RunIs(line, ' ', spaces);
    RunIs(Head(line), mark, run);
    assert rest == Head(line)[run..];
  }

  lemma HeadParts(line: string)
    requires Head(line) != ""
    ensures Parts(line, Run(line, ' '), Head(line)[0], FenceRun(line), Rest(line)) && 0 < FenceRun(line) && Head(line)[0] != ' '
  {
    var n := Run(line, ' ');
    forall i | n <= i < n + FenceRun(line)
      ensures line[i] == Head(line)[0]
    {
      assert line[i] == Head(line)[i - n];
    }
  }

  lemma OpensHead(line: string, f: Fence)
    requires Opens(line, f)
    ensures Head(line) != "" && Run(line, ' ') <= 3 && f == Fence(Head(line)[0], FenceRun(line))
    ensures f.mark == '`' ==> '`' !in Rest(line)
  {
    var spaces: nat, rest :| spaces <= 3 && Parts(line, spaces, f.mark, f.run, rest) && 3 <= f.run
      && (f.mark == '`' || f.mark == '~') && (f.mark == '`' ==> '`' !in rest);
    PartsAre(line, spaces, f.mark, f.run, rest);
  }

  lemma ClosesHead(line: string, f: Fence)
    requires Closes(line, f) && FenceOk(Some(f))
    ensures Head(line) != "" && Run(line, ' ') <= 3 && f.mark == Head(line)[0] && f.run <= FenceRun(line) && Blank(Rest(line))
  {
    var spaces: nat, run: nat, rest :| spaces <= 3 && Parts(line, spaces, f.mark, run, rest) && f.run <= run && Blank(rest);
    PartsAre(line, spaces, f.mark, run, rest);
  }

  function Final(fence: Option<Fence>, v: Verdict): Option<Fence> {
    match v case Wait => fence case Decided(f) => f
  }

  // Classifying a whole line once follows the rule.
  lemma WholeLine(fence: Option<Fence>, line: string)
    requires FenceOk(fence)
    ensures LineRule(fence, line, Final(fence, Classify(fence, line, true)))
    ensures FenceOk(Final(fence, Classify(fence, line, true)))
  {
    if Head(line) != "" {
      HeadParts(line);
    }
    match fence
    case None =>
      if f :| Opens(line, f) {
        OpensHead(line, f);
      }
      var v := Final(fence, Classify(fence, line, true));
      if v.Some? {
        assert Parts(line, Run(line, ' '), v.value.mark, v.value.run, Rest(line));
        assert Opens(line, v.value);
      }
    case Some(f) =>
      if Closes(line, f) {
        ClosesHead(line, f);
      }
      if Classify(fence, line, true) == Decided(None) {
        assert Parts(line, Run(line, ' '), f.mark, FenceRun(line), Rest(line));
        assert Closes(line, f);
      }
  }

  // --- Fence lines written out -------------------------------------------------------------------

  // Unicode's white space and the separators 1C to 1F.
  const WHITE := "\t\n\U{0B}\U{0C}\r\U{1C}\U{1D}\U{1E}\U{1F} \U{85}\U{A0}\U{1680}\U{2000}\U{2001}\U{2002}\U{2003}\U{2004}"
    + "\U{2005}\U{2006}\U{2007}\U{2008}\U{2009}\U{200A}\U{2028}\U{2029}\U{202F}\U{205F}\U{3000}"

  function Times(c: char, n: nat): (s: string)
    ensures |s| == n && forall i | 0 <= i < n :: s[i] == c
  {
    seq(n, _ => c)
  }

  lemma SpacesAre(c: char)
    ensures IsSpace(c) <==> c in WHITE
  {
  }

  // spaces, then a run of the mark, then rest.
  ghost predicate Written(line: string, spaces: nat, mark: char, run: nat, rest: string) {
    line == Times(' ', spaces) + Times(mark, run) + rest
  }

  lemma WrittenParts(line: string, spaces: nat, mark: char, run: nat, rest: string)
    requires rest != "" ==> rest[0] != mark
    ensures Written(line, spaces, mark, run, rest) <==> Parts(line, spaces, mark, run, rest)
  {
    if Parts(line, spaces, mark, run, rest) {
      assert line == line[..spaces] + line[spaces..spaces + run] + line[spaces + run..];
      assert line[..spaces] == Times(' ', spaces) && line[spaces..spaces + run] == Times(mark, run);
    }
  }

  ghost predicate ClosingLine(line: string, f: Fence, spaces: nat, run: nat, rest: string) {
    spaces <= 3 && f.run <= run && Written(line, spaces, f.mark, run, rest) && forall i | 0 <= i < |rest| :: rest[i] in WHITE
  }

  // A whole line closes a fence exactly when it is up to three spaces, as many marks as the
  // fence has or more, and white space.
  lemma ClosesIff(line: string, f: Fence)
    requires FenceOk(Some(f))
    ensures Final(Some(f), Classify(Some(f), line, true)) == None
            <==> exists spaces: nat, run: nat, rest :: ClosingLine(line, f, spaces, run, rest)
  {
    WholeLine(Some(f), line);
    if Closes(line, f) {
      var spaces: nat, run: nat, rest :| spaces <= 3 && Parts(line, spaces, f.mark, run, rest) && f.run <= run && Blank(rest);
      WrittenParts(line, spaces, f.mark, run, rest);
      forall i | 0 <= i < |rest|
        ensures rest[i] in WHITE
      {
        SpacesAre(rest[i]);
      }
      assert ClosingLine(line, f, spaces, run, rest);
    }
    if spaces: nat, run: nat, rest :| ClosingLine(line, f, spaces, run, rest) {
      MarkNotWhite(f.mark, rest);
      WrittenParts(line, spaces, f.mark, run, rest);
      assert Closes(line, f);
    }
  }

  lemma MarkNotWhite(mark: char, rest: string)
    requires (mark == '`' || mark == '~') && forall i | 0 <= i < |rest| :: rest[i] in WHITE
    ensures Blank(rest) && (rest != "" ==> rest[0] != mark)
  {
    forall i | 0 <= i < |rest|
      ensures IsSpace(rest[i])
    {
      SpacesAre(rest[i]);
    }
  }

  ghost predicate OpeningLine(line: string, f: Fence, spaces: nat, rest: string) {
    && spaces <= 3 && 3 <= f.run && (f.mark == '`' || f.mark == '~') && Written(line, spaces, f.mark, f.run, rest)
    && (rest != "" ==> rest[0] != f.mark) && (f.mark == '`' ==> '`' !in rest)
  }

  // Outside a fence a whole line opens one exactly when it is up to three spaces, three or more
  // backticks or tildes, and an info string, after backticks one without.
  lemma OpensIff(line: string, f: Fence)
    ensures Final(None, Classify(None, line, true)) == Some(f) <==> exists spaces: nat, rest :: OpeningLine(line, f, spaces, rest)
  {
    WholeLine(None, line);
    if Opens(line, f) {
      var spaces: nat, rest :| spaces <= 3 && Parts(line, spaces, f.mark, f.run, rest) && 3 <= f.run
        && (f.mark == '`' || f.mark == '~') && (f.mark == '`' ==> '`' !in rest);
      WrittenParts(line, spaces, f.mark, f.run, rest);
      assert OpeningLine(line, f, spaces, rest);
      OpensHead(line, f);
      OpensHead(line, Final(None, Classify(None, line, true)).value);
    }
    if spaces: nat, rest :| OpeningLine(line, f, spaces, rest) {
      WrittenParts(line, spaces, f.mark, f.run, rest);
      assert Opens(line, f);
    }
  }

  // --- Deciding early is deciding right ------------------------------------------------------

  lemma RunPrefix(s: string, t: string, c: char)
    requires Run(s, c) < |s|
    ensures Run(s + t, c) == Run(s, c)
  {
    RunIs(s + t, c, Run(s, c));
  }

  // Once decided, more of the line changes nothing, nor does its end.
  lemma DecidedStays(fence: Option<Fence>, line: string, more: string, ended: bool)
    requires Classify(fence, line, false).Decided?
    ensures Classify(fence, line + more, ended) == Classify(fence, line, false)
  {
    if Run(line, ' ') > 3 {
      RunAtLeast(line + more, ' ', Run(line, ' '));
    } else {
      HeadGrows(line, more);
      if Head(line)[0] == '`' || Head(line)[0] == '~' {
        RestGrows(line, more);
      }
    }
  }

  lemma HeadGrows(line: string, more: string)
    requires Head(line) != ""
    ensures Head(line + more) == Head(line) + more && Run(line + more, ' ') == Run(line, ' ')
  {
    RunPrefix(line, more, ' ');
  }

  lemma RestGrows(line: string, more: string)
    requires Head(line) != "" && Rest(line) != ""
    ensures Head(line + more) == Head(line) + more && FenceRun(line + more) == FenceRun(line)
    ensures Rest(line + more) == Rest(line) + more
    ensures !Blank(Rest(line)) ==> !Blank(Rest(line + more))
  {
    HeadGrows(line, more);
    RunPrefix(Head(line), more, Head(line)[0]);
    RestPrefix(Head(line), more, FenceRun(line));
    NotBlankGrows(Rest(line), more);
  }

  lemma RestPrefix(head: string, more: string, n: nat)
    requires n <= |head|
    ensures (head + more)[n..] == head[n..] + more
  {
  }

  lemma NotBlankGrows(s: string, more: string)
    ensures !Blank(s) ==> !Blank(s + more)
  {
    if i :| 0 <= i < |s| && !IsSpace(s[i]) {
      assert (s + more)[i] == s[i];
    }
  }

  // --- Feeding text --------------------------------------------------------------------------

  // The tracker up to what no longer matters: a decided line's text.
  datatype Norm = Norm(fence: Option<Fence>, line: Option<string>)

  function FeedChar(st: Norm, c: char): Norm {
    match st.line
    case None => if c == '\n' then Norm(st.fence, Some("")) else st
    case Some(line) =>
      if c == '\n' then Norm(Final(st.fence, Classify(st.fence, line, true)), Some(""))
      else match Classify(st.fence, line + [c], false)
        case Wait => Norm(st.fence, Some(line + [c]))
        case Decided(f) => Norm(f, None)
  }

  // One character at a time.
  function Feed(st: Norm, text: string): Norm {
    if text == "" then st else FeedChar(Feed(st, text[..|text| - 1]), text[|text| - 1])
  }

  // However the text is cut.
  lemma {:induction false} FeedConcat(st: Norm, a: string, b: string)
    ensures Feed(st, a + b) == Feed(Feed(st, a), b)
    decreases |b|
  {
    if b == "" {
      assert a + b == a;
    } else {
      FeedConcat(st, a, b[..|b| - 1]);
      assert (a + b)[..|a + b| - 1] == a + b[..|b| - 1];
    }
  }

  function Concat(pieces: seq<string>): string {
    if pieces == [] then "" else Concat(pieces[..|pieces| - 1]) + pieces[|pieces| - 1]
  }

  function FeedAll(st: Norm, pieces: seq<string>): Norm {
    if pieces == [] then st else Feed(FeedAll(st, pieces[..|pieces| - 1]), pieces[|pieces| - 1])
  }

  // Two ways of cutting a text leave the same fence open.
  lemma {:induction false} AnyPieces(st: Norm, pieces: seq<string>, others: seq<string>)
    requires Concat(pieces) == Concat(others)
    ensures FeedAll(st, pieces) == FeedAll(st, others) == Feed(st, Concat(pieces))
  {
    PiecesAre(st, pieces);
    PiecesAre(st, others);
  }

  lemma {:induction false} PiecesAre(st: Norm, pieces: seq<string>)
    ensures FeedAll(st, pieces) == Feed(st, Concat(pieces))
  {
    if pieces != [] {
      PiecesAre(st, pieces[..|pieces| - 1]);
      FeedConcat(st, Concat(pieces[..|pieces| - 1]), pieces[|pieces| - 1]);
    }
  }

  // A line's text fed at once to an undecided line.
  lemma {:induction false} FeedPiece(fence: Option<Fence>, line: string, piece: string)
    requires '\n' !in piece && piece != ""
    requires line == "" || Classify(fence, line, false) == Wait
    ensures Feed(Norm(fence, Some(line)), piece)
            == match Classify(fence, line + piece, false)
               case Wait => Norm(fence, Some(line + piece))
               case Decided(f) => Norm(f, None)
    decreases |piece|
  {
    var n := |piece| - 1;
    var front, c := piece[..n], piece[n];
    assert line + piece == (line + front) + [c];
    if n == 0 {
      assert Feed(Norm(fence, Some(line)), front) == Norm(fence, Some(line)) && line + front == line;
    } else {
      FeedPiece(fence, line, front);
      if Classify(fence, line + front, false).Decided? {
        DecidedStays(fence, line + front, [c], false);
      }
    }
  }

  lemma {:induction false} FeedDone(fence: Option<Fence>, piece: string)
    requires '\n' !in piece
    ensures Feed(Norm(fence, None), piece) == Norm(fence, None)
    decreases |piece|
  {
    if piece != "" {
      FeedDone(fence, piece[..|piece| - 1]);
    }
  }

  // A whole line, its end included, does what classifying it once does.
  lemma FeedLine(fence: Option<Fence>, line: string)
    requires '\n' !in line
    ensures Feed(Norm(fence, Some("")), line + "\n") == Norm(Final(fence, Classify(fence, line, true)), Some(""))
  {
    assert (line + "\n")[..|line|] == line;
    if line != "" {
      FeedPiece(fence, "", line);
      assert "" + line == line;
      if Classify(fence, line, false).Decided? {
        DecidedStays(fence, line, "", true);
        assert line + "" == line;
      }
    }
  }

  // The fence after these whole lines.
  function AfterLines(fence: Option<Fence>, lines: seq<string>): Option<Fence> {
    if lines == [] then fence
    else var f := AfterLines(fence, lines[..|lines| - 1]);
      Final(f, Classify(f, lines[|lines| - 1], true))
  }

  function Joined(lines: seq<string>): string {
    if lines == [] then "" else Joined(lines[..|lines| - 1]) + lines[|lines| - 1] + "\n"
  }

  // On complete lines, the fence is what classifying each whole line once gives.
  lemma {:induction false} FeedLines(fence: Option<Fence>, lines: seq<string>)
    requires forall i | 0 <= i < |lines| :: '\n' !in lines[i]
    ensures Feed(Norm(fence, Some("")), Joined(lines)) == Norm(AfterLines(fence, lines), Some(""))
    decreases |lines|
  {
    if lines != [] {
      var rest, line := lines[..|lines| - 1], lines[|lines| - 1];
      FeedLines(fence, rest);
      assert Joined(lines) == Joined(rest) + (line + "\n");
      FeedConcat(Norm(fence, Some("")), Joined(rest), line + "\n");
      FeedLine(AfterLines(fence, rest), line);
    }
  }

  // --- The tracker -----------------------------------------------------------------------------

  // text.split("\n").
  function Split(text: string): (parts: seq<string>)
    ensures |parts| > 0
  {
    if text == "" then [""]
    else
      var front := Split(text[..|text| - 1]);
      var c := text[|text| - 1];
      if c == '\n' then front + [""] else front[..|front| - 1] + [front[|front| - 1] + [c]]
  }

  // The first i parts, a newline between each two.
  function Upto(parts: seq<string>, i: nat): string
    requires i <= |parts|
  {
    if i == 0 then "" else Upto(parts, i - 1) + (if i > 1 then "\n" else "") + parts[i - 1]
  }

  lemma {:induction false} UptoSame(a: seq<string>, b: seq<string>, i: nat)
    requires i <= |a| && i <= |b| && a[..i] == b[..i]
    ensures Upto(a, i) == Upto(b, i)
  {
    if i > 0 {
      assert a[..i - 1] == a[..i][..i - 1] && b[..i - 1] == b[..i][..i - 1];
      UptoSame(a, b, i - 1);
      assert a[..i][i - 1] == b[..i][i - 1];
    }
  }

  lemma {:induction false} SplitIs(text: string)
    ensures Upto(Split(text), |Split(text)|) == text
    ensures forall i | 0 <= i < |Split(text)| :: '\n' !in Split(text)[i]
  {
    if text != "" {
      var before, c := text[..|text| - 1], text[|text| - 1];
      SplitIs(before);
      var front, parts := Split(before), Split(text);
      var n := |front|;
      if c == '\n' {
        UptoSame(front, parts, n);
        assert text == before + "\n" + "";
      } else {
        UptoSame(front, parts, n - 1);
        assert text == before + [c];
        assert Upto(parts, n) == Upto(front, n) + [c];
      }
    } else {
      assert Upto([""], 1) == "";
    }
  }

  class Tracker {
    var fence: Option<Fence>
    var line: string
    var done: bool

    constructor ()
      ensures Valid() && Abstract() == Norm(None, Some(""))
    {
      fence, line, done := None, "", false;
    }

    function Abstract(): Norm
      reads this
    {
      Norm(fence, if done then Option<string>.None else Some(line))
    }

    // An undecided line has been looked at and left undecided.
    ghost predicate Valid()
      reads this
    {
      done || line == "" || Classify(fence, line, false) == Wait
    }

    // _classify_fence_line.
    method ClassifyLine(ended: bool)
      modifies this
      ensures line == old(line)
      ensures Classify(old(fence), line, ended) == Wait ==> fence == old(fence) && done == old(done)
      ensures Classify(old(fence), line, ended).Decided? ==> done && fence == Classify(old(fence), line, ended).fence
    {
      match Classify(fence, line, ended)
      case Wait =>
      case Decided(f) =>
        fence, done := f, true;
    }

    // _track_fences: whatever the pieces, the tracker ends where the characters one by
    // one would have brought it.
    method Track(text: string)
      requires Valid()
      modifies this
      ensures Valid() && Abstract() == Feed(old(Abstract()), text)
    {
      var parts := Split(text);
      SplitIs(text);
      ghost var start := Abstract();
      for i := 0 to |parts|
        invariant Valid() && Abstract() == Feed(start, Upto(parts, i))
      {
        ghost var before := Abstract();
        if i > 0 {
          EndLine();
        }
        TrackPart(parts[i]);
        UptoFeed(start, parts, i);
      }
    }

    method EndLine()
      requires Valid()
      modifies this
      ensures Valid() && Abstract() == Feed(old(Abstract()), "\n")
    {
      ghost var before := Abstract();
      if !done {
        ClassifyLine(true);
      }
      line, done := "", false;
      assert ("\n")[..0] == "" && Feed(before, "") == before;
    }

    method TrackPart(part: string)
      requires Valid() && '\n' !in part
      modifies this
      ensures Valid() && Abstract() == Feed(old(Abstract()), part)
    {
      if done || part == "" {
        if done {
          FeedDone(fence, part);
        }
        return;
      }
      FeedPiece(fence, line, part);
      line := line + part;
      ClassifyLine(false);
    }
  }

  lemma UptoFeed(start: Norm, parts: seq<string>, i: nat)
    requires i < |parts|
    ensures Feed(start, Upto(parts, i + 1)) == Feed(if i > 0 then Feed(Feed(start, Upto(parts, i)), "\n") else Feed(start, Upto(parts, i)), parts[i])
  {
    var u := Upto(parts, i);
    if i > 0 {
      FeedConcat(start, u, "\n");
      FeedConcat(start, u + "\n", parts[i]);
    } else {
      FeedConcat(start, u, parts[i]);
      assert u + "" + parts[i] == u + parts[i];
    }
  }
}
