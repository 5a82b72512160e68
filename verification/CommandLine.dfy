/**
 * Command lines of the test driver: `val` (scripts/Util.py) prints a word, `splitCommand`
 * (scripts/Expect.py) reads a command line back with a five-state scanner.
 *
 * The two are inverse on exactly the word lists described by `Faithful`.
 */
module CommandLine {
  import opened Common

  // ---------------------------------------------------------------- printing

  /** A value given to `val`: a boolean, a string, or anything else, of which only `str(v)` matters. */
  datatype Value = Bool(b: bool) | Str(s: string) | Other(text: string)

  /** `s.replace(old, new)` for a one-character pattern. */
  function ReplaceChar(s: string, c: char, subst: string): string {
    if s == "" then "" else (if s[0] == c then subst else [s[0]]) + ReplaceChar(s[1..], c, subst)
  }

  /** `val(v, quoteValue)`. */
  function Val(v: Value, quoteValue: bool): string {
    match v
    case Bool(b) => if b then "1" else "0"
    case Other(text) => text
    case Str(s) =>
      if !quoteValue || ' ' !in s then s
      else "\"" + ReplaceChar(ReplaceChar(s, '\\', "\\\\"), '"', "\\\"") + "\""
  }

  /** Escaping in one pass. */
  function Escape(s: string): string {
    if s == "" then "" else EscapeChar(s[0]) + Escape(s[1..])
  }

  function EscapeChar(c: char): string {
    if c == '\\' || c == '"' then ['\\', c] else [c]
  }

  lemma {:induction false} ReplaceCharAppend(a: string, b: string, c: char, subst: string)
    ensures ReplaceChar(a + b, c, subst) == ReplaceChar(a, c, subst) + ReplaceChar(b, c, subst)
  {
    if a == "" {
      assert a + b == b;
    } else {
      ReplaceCharAppend(a[1..], b, c, subst);
      assert (a + b)[1..] == a[1..] + b;
      var h := if a[0] == c then subst else [a[0]];
      assert h + (ReplaceChar(a[1..], c, subst) + ReplaceChar(b, c, subst))
          == h + ReplaceChar(a[1..], c, subst) + ReplaceChar(b, c, subst);
    }
  }

  lemma ReplaceCharNone(s: string, c: char, subst: string)
    requires |s| == 1 && s[0] != c
    ensures ReplaceChar(s, c, subst) == s
  {
    assert s[1..] == "";
    assert [s[0]] + "" == s;
  }

  /** The two successive replaces escape as one pass does. */
  lemma {:induction false} TwoReplacesAreOnePass(s: string)
    ensures ReplaceChar(ReplaceChar(s, '\\', "\\\\"), '"', "\\\"") == Escape(s)
  {
    if s != "" {
      var h := if s[0] == '\\' then "\\\\" else [s[0]];
      var t := ReplaceChar(s[1..], '\\', "\\\\");
      TwoReplacesAreOnePass(s[1..]);
      ReplaceCharAppend(h, t, '"', "\\\"");
      if s[0] == '\\' {
        ReplaceCharAppend("\\", "\\", '"', "\\\"");
        ReplaceCharNone("\\", '"', "\\\"");
        assert h == "\\" + "\\";
      } else if s[0] == '"' {
        assert h[1..] == "";
        assert "\\\"" + "" == "\\\"";
      } else {
        ReplaceCharNone(h, '"', "\\\"");
      }
    }
  }

  // ---------------------------------------------------------------- scanning

  /** `c.isspace()`. */
  predicate IsSpace(c: char) {
    var n := c as int;
    || 0x09 <= n <= 0x0d || 0x1c <= n <= 0x20 || n == 0x85 || n == 0xa0 || n == 0x1680
    || 0x2000 <= n <= 0x200a || n == 0x2028 || n == 0x2029 || n == 0x202f || n == 0x205f || n == 0x3000
  }

  /** The scanner's state; an escape remembers the state it returns to. */
  datatype State = Basic | White | Single | Double | Esc(before: State)

  datatype Scan = Scan(state: State, arg: string, args: seq<string>)

  const Start := Scan(Basic, "", [])

  function Step(p: Scan, c: char): Scan {
    if !p.state.Esc? && c == '\\' then p.(state := Esc(p.state))
    else
      match p.state
      case Basic =>
        if c == '\'' then p.(state := Single)
        else if c == '"' then p.(state := Double)
        else if IsSpace(c) then Scan(White, "", p.args + [p.arg])
        else p.(arg := p.arg + [c])
      case White =>
        if c == '\'' then p.(state := Single)
        else if c == '"' then p.(state := Double)
        else if IsSpace(c) then p
        else p.(arg := p.arg + [c], state := Basic)
      case Esc(before) => p.(arg := p.arg + [c], state := before)
      case Single => if c == '\'' then p.(state := Basic) else p.(arg := p.arg + [c])
      case Double => if c == '"' then p.(state := Basic) else p.(arg := p.arg + [c])
  }

  function Feed(p: Scan, s: string): Scan
    decreases |s|
  {
    if s == "" then p else Feed(Step(p, s[0]), s[1..])
  }

  function Finish(p: Scan): seq<string> {
    if p.arg != "" then p.args + [p.arg] else p.args
  }

  /** The argument list of a command line. */
  function Split(commandLine: string): seq<string> {
    Finish(Feed(Start, commandLine))
  }

  lemma {:induction false} FeedAppend(p: Scan, a: string, b: string)
    ensures Feed(p, a + b) == Feed(Feed(p, a), b)
    decreases |a|
  {
    if a == "" {
      assert a + b == b;
    } else {
      FeedAppend(Step(p, a[0]), a[1..], b);
      assert (a + b)[1..] == a[1..] + b;
    }
  }

  lemma FeedOne(p: Scan, c: char)
    ensures Feed(p, [c]) == Step(p, c)
  {
    assert [c][1..] == "";
  }

  /** The state codes of `splitCommand`. */
  const StateBasic := 0
  const StateEsc := 1
  const StateSingleQuote := 2
  const StateDoubleQuote := 3
  const StateWhitespace := 4

  ghost predicate Codes(state: int, preEscState: int, s: State)
    decreases s
  {
    match s
    case Basic => state == StateBasic
    case White => state == StateWhitespace
    case Single => state == StateSingleQuote
    case Double => state == StateDoubleQuote
    case Esc(before) => state == StateEsc && !before.Esc? && Codes(preEscState, preEscState, before)
  }

  /** `splitCommand`. */
  method SplitCommand(commandLine: string) returns (argList: seq<string>)
    ensures argList == Split(commandLine)
  {
    argList := [];
    var arg := "";
    var state := StateBasic;
    var preEscState := StateBasic;
    ghost var p := Start;
    for i := 0 to |commandLine|
      invariant Codes(state, preEscState, p.state) && arg == p.arg && argList == p.args
      invariant Feed(p, commandLine[i..]) == Feed(Start, commandLine)
    {
      var c := commandLine[i];
      assert commandLine[i..][1..] == commandLine[i + 1..];
      p := Step(p, c);
      if state != StateEsc && c == '\\' {
        preEscState := state;
        state := StateEsc;
      } else if state == StateBasic || state == StateWhitespace {
        if c == '\'' {
          state := StateSingleQuote;
        } else if c == '"' {
          state := StateDoubleQuote;
        } else if IsSpace(c) {
          if state == StateWhitespace {
          } else {
            argList := argList + [arg];
            arg := "";
            state := StateWhitespace;
          }
        } else {
          arg := arg + [c];
          state := StateBasic;
        }
      } else if state == StateEsc {
        arg := arg + [c];
        state := preEscState;
      } else if state == StateSingleQuote {
        if c == '\'' {
          state := StateBasic;
        } else {
          arg := arg + [c];
        }
      } else if state == StateDoubleQuote {
        if c == '"' {
          state := StateBasic;
        } else {
          arg := arg + [c];
        }
      }
    }
    if arg != "" {
      argList := argList + [arg];
    }
  }

  // ---------------------------------------------------------------- what a command line means

  /** A part of a word: plain characters, characters between quotes, or a character after a backslash. */
  datatype Segment = Bare(s: string) | Quote(q: char, s: string) | Backslash(c: char)

  /** Characters that mean nothing to the scanner outside quotes. */
  predicate IsPlain(c: char) {
    !IsSpace(c) && c != '\'' && c != '"' && c != '\\'
  }

  predicate Plain(s: string) {
    forall i :: 0 <= i < |s| ==> IsPlain(s[i])
  }

  predicate ValidSegment(g: Segment) {
    match g
    case Bare(s) => Plain(s) && s != ""
    case Quote(q, s) => q == '\'' || q == '"'
    case Backslash(_) => true
  }

  /** Between quotes, the quote and the backslash need a backslash. */
  function EscapeIn(q: char, s: string): string {
    if s == "" then "" else (if s[0] == q || s[0] == '\\' then ['\\', s[0]] else [s[0]]) + EscapeIn(q, s[1..])
  }

  function Written(g: Segment): string {
    match g
    case Bare(s) => s
    case Quote(q, s) => [q] + EscapeIn(q, s) + [q]
    case Backslash(c) => ['\\', c]
  }

  function Meaning(g: Segment): string {
    match g
    case Backslash(c) => [c]
    case _ => g.s
  }

  function WrittenWord(gs: seq<Segment>): string {
    if gs == [] then "" else Written(gs[0]) + WrittenWord(gs[1..])
  }

  function MeaningOfWord(gs: seq<Segment>): string {
    if gs == [] then "" else Meaning(gs[0]) + MeaningOfWord(gs[1..])
  }

  predicate ValidWord(gs: seq<Segment>) {
    forall i :: 0 <= i < |gs| ==> ValidSegment(gs[i])
  }

  /** Nothing but characters after backslashes. */
  predicate OnlyBackslashes(gs: seq<Segment>) {
    forall i :: 0 <= i < |gs| ==> gs[i].Backslash?
  }

  predicate Outside(s: State) {
    s.Basic? || s.White?
  }

  /** In each of the four other states, a character after a backslash is added as it is, and the scanner is
      in the state that it was in. */
  lemma BackslashAdds(p: Scan, c: char)
    requires !p.state.Esc?
    ensures Feed(p, ['\\', c]) == p.(arg := p.arg + [c])
  {
    assert ['\\', c] == ['\\'] + [c];
    FeedAppend(p, ['\\'], [c]);
    FeedOne(p, '\\');
    FeedOne(p.(state := Esc(p.state)), c);
  }

  /** The state between quotes. */
  function Inside(q: char): State
    requires q == '\'' || q == '"'
  {
    if q == '"' then Double else Single
  }

  lemma {:induction false} InsideAdds(p: Scan, q: char, s: string)
    requires (q == '\'' || q == '"') && p.state == Inside(q)
    ensures Feed(p, EscapeIn(q, s)) == p.(arg := p.arg + s)
    decreases |s|
  {
    if s == "" {
      assert p.arg + "" == p.arg;
    } else {
      var p' := p.(arg := p.arg + [s[0]]);
      var h := if s[0] == q || s[0] == '\\' then ['\\', s[0]] else [s[0]];
      if s[0] == q || s[0] == '\\' {
        BackslashAdds(p, s[0]);
      } else {
        FeedOne(p, s[0]);
      }
      FeedAppend(p, h, EscapeIn(q, s[1..]));
      InsideAdds(p', q, s[1..]);
      assert p.arg + [s[0]] + s[1..] == p.arg + s;
    }
  }

  /** What stands between two quotes of either kind is added as it was meant. */
  lemma QuoteAdds(p: Scan, q: char, s: string)
    requires (q == '\'' || q == '"') && Outside(p.state)
    ensures Feed(p, [q] + EscapeIn(q, s) + [q]) == Scan(Basic, p.arg + s, p.args)
  {
    var p' := p.(state := Inside(q));
    FeedAppend(p, [q] + EscapeIn(q, s), [q]);
    FeedAppend(p, [q], EscapeIn(q, s));
    FeedOne(p, q);
    InsideAdds(p', q, s);
    FeedOne(p'.(arg := p.arg + s), q);
  }

  lemma {:induction false} NoEscapes(q: char, s: string)
    requires q !in s && '\\' !in s
    ensures EscapeIn(q, s) == s
  {
    if s != "" {
      NoEscapes(q, s[1..]);
      assert s[0] != q && s[0] != '\\';
      assert s == [s[0]] + s[1..];
    }
  }

  /** Text between single quotes, as in `-d extension_dir='...'`, is added as it is. */
  lemma SingleQuotesKeepText(p: Scan, s: string)
    requires Outside(p.state) && '\'' !in s && '\\' !in s
    ensures Feed(p, "'" + s + "'") == Scan(Basic, p.arg + s, p.args)
  {
    NoEscapes('\'', s);
    QuoteAdds(p, '\'', s);
  }

  lemma {:induction false} FeedPlain(p: Scan, s: string)
    requires Outside(p.state) && Plain(s)
    ensures Feed(p, s) == if s == "" then p else Scan(Basic, p.arg + s, p.args)
    decreases |s|
  {
    if s != "" {
      assert IsPlain(s[0]);
      FeedPlain(Step(p, s[0]), s[1..]);
      assert s == [s[0]] + s[1..];
      assert p.arg + [s[0]] + s[1..] == p.arg + s;
    }
  }

  lemma SegmentAdds(p: Scan, g: Segment)
    requires Outside(p.state) && ValidSegment(g)
    ensures Feed(p, Written(g)) == Scan(if g.Backslash? then p.state else Basic, p.arg + Meaning(g), p.args)
  {
    match g
    case Bare(s) => FeedPlain(p, s);
    case Quote(q, s) => QuoteAdds(p, q, s);
    case Backslash(c) => BackslashAdds(p, c);
  }

  /** The segments of a word are put together; a scanner that has read nothing but characters after
      backslashes is still in the state that it was in. */
  lemma {:induction false} WordAdds(p: Scan, gs: seq<Segment>)
    requires Outside(p.state) && ValidWord(gs)
    ensures Feed(p, WrittenWord(gs))
         == Scan(if OnlyBackslashes(gs) then p.state else Basic, p.arg + MeaningOfWord(gs), p.args)
    decreases |gs|
  {
    if gs == [] {
      assert p.arg + "" == p.arg;
    } else {
      var rest := gs[1..];
      SegmentAdds(p, gs[0]);
      var q := Feed(p, Written(gs[0]));
      FeedAppend(p, Written(gs[0]), WrittenWord(rest));
      WordAdds(q, rest);
      Regroup(p.arg, Meaning(gs[0]), MeaningOfWord(rest));
      assert OnlyBackslashes(gs) <==> gs[0].Backslash? && OnlyBackslashes(rest) by {
        if gs[0].Backslash? && OnlyBackslashes(rest) {
          forall i | 0 <= i < |gs| ensures gs[i].Backslash? {
            assert i > 0 ==> gs[i] == rest[i - 1];
          }
        }
      }
    }
  }

  /** White space between words. */
  predicate IsGap(s: string) {
    s != "" && forall i :: 0 <= i < |s| ==> IsSpace(s[i])
  }

  /** White space ends the argument, unless the scanner is in its whitespace state. */
  lemma {:induction false} GapEnds(p: Scan, gap: string)
    requires Outside(p.state) && IsGap(gap)
    ensures Feed(p, gap) == if p.state.White? then p else Scan(White, "", p.args + [p.arg])
    decreases |gap|
  {
    var q := Step(p, gap[0]);
    assert IsSpace(gap[0]);
    if |gap| > 1 {
      GapEnds(q, gap[1..]);
    } else {
      assert gap[1..] == "";
    }
  }

  /** So a word of which every character has a backslash is not ended: what follows is joined to it. */
  lemma EscapedWordIsJoined(p: Scan, gs: seq<Segment>, gap: string)
    requires p.state.White? && ValidWord(gs) && OnlyBackslashes(gs) && IsGap(gap)
    ensures Feed(p, WrittenWord(gs) + gap) == p.(arg := p.arg + MeaningOfWord(gs))
  {
    FeedAppend(p, WrittenWord(gs), gap);
    WordAdds(p, gs);
    GapEnds(Feed(p, WrittenWord(gs)), gap);
  }

  function WrittenCommand(ws: seq<seq<Segment>>, gap: string): string {
    if ws == [] then ""
    else if |ws| == 1 then WrittenWord(ws[0])
    else WrittenWord(ws[0]) + gap + WrittenCommand(ws[1..], gap)
  }

  function Meanings(ws: seq<seq<Segment>>): (r: seq<string>)
    ensures |r| == |ws|
  {
    seq(|ws|, i requires 0 <= i < |ws| => MeaningOfWord(ws[i]))
  }

  /** Words that are ended by white space, the last of which is not empty. */
  predicate Readable(ws: seq<seq<Segment>>) {
    && (forall i :: 0 <= i < |ws| ==> ValidWord(ws[i]))
    && (forall i :: 0 <= i < |ws| - 1 ==> !OnlyBackslashes(ws[i]))
    && (ws != [] ==> MeaningOfWord(ws[|ws| - 1]) != "")
  }

  lemma {:induction false} CommandMeansFrom(p: Scan, ws: seq<seq<Segment>>, gap: string)
    requires Outside(p.state) && p.arg == "" && Readable(ws) && IsGap(gap)
    ensures Finish(Feed(p, WrittenCommand(ws, gap))) == p.args + Meanings(ws)
    decreases |ws|
  {
    if ws == [] {
      assert p.args + [] == p.args;
    } else if |ws| == 1 {
      LastWord(p, ws[0]);
      assert Meanings(ws) == [MeaningOfWord(ws[0])];
    } else {
      CommandMeansFrom(Scan(White, "", p.args + [MeaningOfWord(ws[0])]), ws[1..], gap);
      MoreWords(p, ws, gap);
    }
  }

  lemma MoreWords(p: Scan, ws: seq<seq<Segment>>, gap: string)
    requires Outside(p.state) && p.arg == "" && |ws| > 1 && IsGap(gap)
    requires ValidWord(ws[0]) && !OnlyBackslashes(ws[0])
    requires var q := Scan(White, "", p.args + [MeaningOfWord(ws[0])]);
             Finish(Feed(q, WrittenCommand(ws[1..], gap))) == q.args + Meanings(ws[1..])
    ensures Finish(Feed(p, WrittenCommand(ws, gap))) == p.args + Meanings(ws)
  {
    FirstWordEnds(p, ws, gap);
    assert Meanings(ws) == [MeaningOfWord(ws[0])] + Meanings(ws[1..]);
    Regroup(p.args, [MeaningOfWord(ws[0])], Meanings(ws[1..]));
  }

  lemma LastWord(p: Scan, w: seq<Segment>)
    requires Outside(p.state) && p.arg == "" && ValidWord(w) && MeaningOfWord(w) != ""
    ensures Finish(Feed(p, WrittenWord(w))) == p.args + [MeaningOfWord(w)]
  {
    WordAdds(p, w);
    assert "" + MeaningOfWord(w) == MeaningOfWord(w);
  }

  lemma FirstWordEnds(p: Scan, ws: seq<seq<Segment>>, gap: string)
    requires Outside(p.state) && p.arg == "" && |ws| > 1 && IsGap(gap)
    requires ValidWord(ws[0]) && !OnlyBackslashes(ws[0])
    ensures Feed(p, WrittenCommand(ws, gap))
         == Feed(Scan(White, "", p.args + [MeaningOfWord(ws[0])]), WrittenCommand(ws[1..], gap))
  {
    var w := ws[0];
    FeedAppend(p, WrittenWord(w) + gap, WrittenCommand(ws[1..], gap));
    FeedAppend(p, WrittenWord(w), gap);
    WordAdds(p, w);
    assert "" + MeaningOfWord(w) == MeaningOfWord(w);
    GapEnds(Feed(p, WrittenWord(w)), gap);
  }

  /** A command line of words made of plain, quoted and backslashed parts is split into what they mean. */
  lemma CommandMeans(ws: seq<seq<Segment>>, gap: string)
    requires Readable(ws) && IsGap(gap)
    ensures Split(WrittenCommand(ws, gap)) == Meanings(ws)
  {
    CommandMeansFrom(Start, ws, gap);
    assert [] + Meanings(ws) == Meanings(ws);
  }

  // ---------------------------------------------------------------- words

  /** A word of the command: a plain argument has an empty prefix, a property the prefix `--key=`. */
  datatype Word = Word(prefix: string, value: Value)

  function Text(v: Value): string {
    match v
    case Bool(b) => if b then "1" else "0"
    case Str(s) => s
    case Other(text) => text
  }

  /** An environment variable gets the text itself, and so does a word of the command, unless it is a string
      with a space. */
  lemma ValText(v: Value, quoteValue: bool)
    ensures Val(v, quoteValue) == Text(v) || (quoteValue && v.Str? && ' ' in v.s)
    ensures v == Bool(true) ==> Val(v, quoteValue) == "1"
    ensures v == Bool(false) ==> Val(v, quoteValue) == "0"
    ensures v.Str? && quoteValue && ' ' in v.s ==> Val(v, quoteValue) == "\"" + EscapeIn('"', v.s) + "\""
  {
    if v.Str? && quoteValue && ' ' in v.s {
      TwoReplacesAreOnePass(v.s);
      SameEscapes(v.s);
    }
  }

  lemma {:induction false} SameEscapes(s: string)
    ensures Escape(s) == EscapeIn('"', s)
  {
    if s != "" {
      SameEscapes(s[1..]);
    }
  }

  /** What the program should receive for a word. */
  function WordText(w: Word): string {
    w.prefix + Text(w.value)
  }

  /** What is written on the command line for a word. */
  function Printed(w: Word): string {
    w.prefix + Val(w.value, true)
  }

  function Texts(ws: seq<Word>): (r: seq<string>)
    ensures |r| == |ws|
  {
    seq(|ws|, i requires 0 <= i < |ws| => WordText(ws[i]))
  }

  /** `" ".join(args)`. */
  function Command(ws: seq<Word>): string {
    if ws == [] then ""
    else if |ws| == 1 then Printed(ws[0])
    else Printed(ws[0]) + " " + Command(ws[1..])
  }

  predicate Quoted(w: Word) {
    w.value.Str? && ' ' in w.value.s
  }

  /** A string with a space is quoted and needs a plain key; anything else is written as it is and must
      be plain and not empty. */
  predicate Good(w: Word) {
    if Quoted(w) then Plain(w.prefix) else Plain(WordText(w)) && WordText(w) != ""
  }

  predicate AllGood(ws: seq<Word>) {
    forall i :: 0 <= i < |ws| ==> Good(ws[i])
  }

  /** The lists that survive: every word is good, except that the very first may be empty when another
      follows it, because the scanner does not start in its whitespace state. */
  predicate Faithful(ws: seq<Word>) {
    AllGood(ws) || (|ws| >= 2 && WordText(ws[0]) == "" && AllGood(ws[1..]))
  }

  // ---------------------------------------------------------------- good words are read back

  lemma FeedQuote(p: Scan, s: string)
    requires Outside(p.state)
    ensures Feed(p, "\"" + Escape(s) + "\"") == Scan(Basic, p.arg + s, p.args)
  {
    SameEscapes(s);
    QuoteAdds(p, '"', s);
  }

  /** Outside quotes, a good word is appended to the current argument as it was meant. */
  lemma FeedGood(p: Scan, w: Word)
    requires Outside(p.state) && Good(w)
    ensures Feed(p, Printed(w)) == Scan(Basic, p.arg + WordText(w), p.args)
  {
    if Quoted(w) {
      var s := w.value.s;
      TwoReplacesAreOnePass(s);
      FeedAppend(p, w.prefix, "\"" + Escape(s) + "\"");
      FeedPlain(p, w.prefix);
      var q := Feed(p, w.prefix);
      assert q.arg == p.arg + w.prefix && q.args == p.args && Outside(q.state);
      FeedQuote(q, s);
      Regroup(p.arg, w.prefix, s);
    } else {
      FeedPlain(p, WordText(w));
    }
  }

  // ---------------------------------------------------------------- what is written against what is read

  /** The characters of a list of words, with a mark at the end of each. */
  datatype Mark = Char(c: char) | End

  function Chars(s: string): (r: seq<Mark>)
    ensures |r| == |s|
  {
    seq(|s|, i requires 0 <= i < |s| => Char(s[i]))
  }

  function Marks(ts: seq<string>): seq<Mark> {
    if ts == [] then [] else Chars(ts[0]) + [End] + Marks(ts[1..])
  }

  /** What the scanner has produced so far. */
  function Emitted(p: Scan): seq<Mark> {
    Marks(p.args) + Chars(p.arg)
  }

  lemma {:induction false} MarksAppend(a: seq<string>, b: seq<string>)
    ensures Marks(a + b) == Marks(a) + Marks(b)
  {
    if a == [] {
      assert a + b == b;
    } else {
      MarksAppend(a[1..], b);
      assert (a + b)[1..] == a[1..] + b && (a + b)[0] == a[0];
      Regroup(Chars(a[0]) + [End], Marks(a[1..]), Marks(b));
    }
  }

  lemma MarksOne(t: string)
    ensures Marks([t]) == Chars(t) + [End]
  {
    assert [t][1..] == [];
    assert Chars(t) + [End] + [] == Chars(t) + [End];
  }

  /** A step ends the argument, adds its character to it, or produces nothing. */
  lemma StepEmits(p: Scan, c: char)
    ensures var q := Step(p, c);
            Emitted(q) == Emitted(p) + if q.args != p.args then [End] else if q.arg != p.arg then [Char(c)] else []
  {
    var q := Step(p, c);
    if q.args != p.args {
      MarksAppend(p.args, [p.arg]);
      MarksOne(p.arg);
      assert Chars("") == [];
    } else if q.arg != p.arg {
      assert Chars(p.arg + [c]) == Chars(p.arg) + [Char(c)];
    }
  }

  lemma {:induction false} FeedEmits(p: Scan, s: string)
    ensures Emitted(p) <= Emitted(Feed(p, s))
    decreases |s|
  {
    if s != "" {
      StepEmits(p, s[0]);
      FeedEmits(Step(p, s[0]), s[1..]);
    }
  }

  lemma FinishEmits(p: Scan)
    ensures Marks(Finish(p)) == Emitted(p) + if p.arg != "" then [End] else []
  {
    MarksAppend(p.args, [p.arg]);
    MarksOne(p.arg);
    assert Chars("") == [];
  }

  // ---------------------------------------------------------------- bad words are not read back

  predicate WellFormed(s: State) {
    s.Esc? ==> !s.before.Esc?
  }

  /** The scanner has produced less than the words it has read: r marks of `all`, which is what it should
      produce in the end. */
  predicate Behind(p: Scan, all: seq<Mark>, r: nat) {
    WellFormed(p.state) && Emitted(p) <= all && |Emitted(p)| < r <= |all|
  }

  /** The next character will be added to the argument as it is, and a quote cannot be it. */
  predicate NoQuoteDue(p: Scan, all: seq<Mark>, r: nat)
    requires Behind(p, all, r)
  {
    (p.state.Single? || p.state.Esc?) && |Emitted(p)| == r - 1 ==> all[r - 1] != Char('"')
  }

  /** A character that is written as it is does not help the scanner to catch up. */
  lemma RawStep(p: Scan, c: char, all: seq<Mark>, r: nat)
    requires Behind(p, all, r) && NoQuoteDue(p, all, r) && r < |all| && all[r] == Char(c)
    requires Emitted(Step(p, c)) <= all
    ensures Behind(Step(p, c), all, r + 1) && NoQuoteDue(Step(p, c), all, r + 1)
  {
    StepEmits(p, c);
    var q := Step(p, c);
    assert q.args == p.args && q.arg != p.arg ==> all[|Emitted(p)|] == Char(c);
  }

  lemma {:induction false} RawStaysBehind(p: Scan, s: string, all: seq<Mark>, r: nat)
    requires Behind(p, all, r) && NoQuoteDue(p, all, r) && Chars(s) <= all[r..]
    requires Emitted(Feed(p, s)) <= all
    ensures Behind(Feed(p, s), all, r + |s|) && NoQuoteDue(Feed(p, s), all, r + |s|)
    decreases |s|
  {
    if s != "" {
      ReadOne(s, all, r);
      FeedEmits(Step(p, s[0]), s[1..]);
      RawStep(p, s[0], all, r);
      RawStaysBehind(Step(p, s[0]), s[1..], all, r + 1);
    }
  }

  lemma ReadOne(s: string, all: seq<Mark>, r: nat)
    requires r <= |all| && s != "" && Chars(s) <= all[r..]
    ensures r < |all| && all[r] == Char(s[0]) && Chars(s[1..]) <= all[r + 1..]
  {
    assert all[r] == all[r..][0] == Chars(s)[0];
    assert all[r + 1..] == all[r..][1..] && Chars(s[1..]) == Chars(s)[1..];
  }

  /** A separator ends a word. */
  lemma SeparatorStep(p: Scan, all: seq<Mark>, r: nat)
    requires Behind(p, all, r) && r < |all| && all[r] == End
    requires Emitted(Step(p, ' ')) <= all
    ensures Behind(Step(p, ' '), all, r + 1) && NoQuoteDue(Step(p, ' '), all, r + 1)
  {
    StepEmits(p, ' ');
  }

  /** An escaped character of a quoted word.  If the scanner is behind by one mark between single quotes,
      the character must repeat the one before. */
  lemma EscapedStep(p: Scan, c: char, all: seq<Mark>, r: nat)
    requires Behind(p, all, r) && !p.state.Esc? && r < |all| && all[r] == Char(c)
    requires Emitted(Feed(p, EscapeChar(c))) <= all
    ensures var q := Feed(p, EscapeChar(c));
            && Behind(q, all, r + 1) && !q.state.Esc?
            && (q.state.Single? && |Emitted(q)| == r ==>
                  p.state.Single? && |Emitted(p)| == r - 1 && all[r - 1] == Char(c))
  {
    StepEmits(p, c);
    if c == '\\' || c == '"' {
      assert EscapeChar(c) == ['\\'] + [c];
      FeedAppend(p, ['\\'], [c]);
      FeedOne(p, '\\');
      FeedOne(Step(p, '\\'), c);
      StepEmits(p, '\\');
      StepEmits(Step(p, '\\'), c);
    } else {
      FeedOne(p, c);
    }
  }

  lemma {:induction false} EscapedStaysBehind(p: Scan, s: string, all: seq<Mark>, r: nat)
    requires Behind(p, all, r) && !p.state.Esc? && Chars(s) <= all[r..]
    requires Emitted(Feed(p, Escape(s))) <= all
    ensures var q := Feed(p, Escape(s));
            && Behind(q, all, r + |s|) && !q.state.Esc?
            && (q.state.Single? && |Emitted(q)| == r + |s| - 1 ==>
                  p.state.Single? && |Emitted(p)| == r - 1 && forall i :: 0 <= i < |s| ==> Char(s[i]) == all[r - 1])
    decreases |s|
  {
    if s != "" {
      var q := Feed(p, EscapeChar(s[0]));
      ReadOne(s, all, r);
      FeedAppend(p, EscapeChar(s[0]), Escape(s[1..]));
      FeedEmits(q, Escape(s[1..]));
      EscapedStep(p, s[0], all, r);
      EscapedStaysBehind(q, s[1..], all, r + 1);
      assert forall i :: 1 <= i < |s| ==> s[i] == s[1..][i - 1];
    }
  }

  /** A quote that belongs to no word is produced only between single quotes or after a backslash. */
  lemma QuoteStep(p: Scan, all: seq<Mark>, r: nat)
    requires Behind(p, all, r) && Emitted(Step(p, '"')) <= all && NoQuoteDue(p, all, r)
    ensures Behind(Step(p, '"'), all, r) && !Step(p, '"').state.Esc?
  {
    StepEmits(p, '"');
    var q := Step(p, '"');
    assert q.arg != p.arg ==> all[|Emitted(p)|] == Char('"');
  }

  lemma FeedQuotes(p: Scan, s: string)
    ensures Feed(p, "\"" + Escape(s) + "\"") == Step(Feed(Step(p, '"'), Escape(s)), '"')
  {
    FeedAppend(p, "\"" + Escape(s), "\"");
    FeedAppend(p, "\"", Escape(s));
    FeedOne(p, '"');
    FeedOne(Feed(Step(p, '"'), Escape(s)), '"');
  }

  /** The two quotes around a string with a space could make up for a loss, but never for all of it. */
  lemma QuotesStayBehind(p: Scan, s: string, all: seq<Mark>, r: nat)
    requires Behind(p, all, r) && NoQuoteDue(p, all, r) && Chars(s) <= all[r..] && ' ' in s
    requires Emitted(Feed(p, "\"" + Escape(s) + "\"")) <= all
    ensures Behind(Feed(p, "\"" + Escape(s) + "\""), all, r + |s|)
  {
    var q := Step(p, '"');
    var t := Feed(q, Escape(s));
    FeedQuotes(p, s);
    FeedEmits(q, Escape(s));
    StepEmits(t, '"');
    QuoteStep(p, all, r);
    EscapedStaysBehind(q, s, all, r);
    var n := |s| - 1;
    assert Chars(s)[n] == all[r..][n] == all[r + n];
    if t.state.Single? && |Emitted(t)| == r + n {
      var i :| 0 <= i < |s| && s[i] == ' ';
      assert Char(s[i]) == Char(s[n]);
    }
    QuoteStep(t, all, r + |s|);
  }

  /** A scanner that is behind at the start of a word is behind at its end. */
  lemma WordStaysBehind(p: Scan, w: Word, all: seq<Mark>, r: nat)
    requires Behind(p, all, r) && NoQuoteDue(p, all, r) && Chars(WordText(w)) <= all[r..]
    requires Emitted(Feed(p, Printed(w))) <= all
    ensures Behind(Feed(p, Printed(w)), all, r + |WordText(w)|)
  {
    if Quoted(w) {
      ReadPrefix(w.prefix, w.value.s, all, r);
      FeedPrinted(p, w);
      FeedEmits(Feed(p, w.prefix), "\"" + Escape(w.value.s) + "\"");
      RawStaysBehind(p, w.prefix, all, r);
      QuotesStayBehind(Feed(p, w.prefix), w.value.s, all, r + |w.prefix|);
    } else {
      RawStaysBehind(p, WordText(w), all, r);
    }
  }

  lemma ReadPrefix(a: string, b: string, all: seq<Mark>, r: nat)
    requires r <= |all| && Chars(a + b) <= all[r..]
    ensures Chars(a) <= all[r..] && r + |a| <= |all| && Chars(b) <= all[r + |a|..]
  {
    assert Chars(a + b) == Chars(a) + Chars(b);
    assert all[r + |a|..] == all[r..][|a|..];
  }

  lemma FeedPrinted(p: Scan, w: Word)
    requires Quoted(w)
    ensures Feed(p, Printed(w)) == Feed(Feed(p, w.prefix), "\"" + Escape(w.value.s) + "\"")
  {
    TwoReplacesAreOnePass(w.value.s);
    FeedAppend(p, w.prefix, "\"" + Escape(w.value.s) + "\"");
  }

  /** What follows a word on the command line. */
  function Tail(rest: seq<Word>): string {
    if rest == [] then "" else " " + Command(rest)
  }

  lemma CommandHead(p: Scan, ws: seq<Word>)
    requires ws != []
    ensures Feed(p, Command(ws)) == Feed(Feed(p, Printed(ws[0])), Tail(ws[1..]))
  {
    assert Command(ws) == Printed(ws[0]) + Tail(ws[1..]);
    FeedAppend(p, Printed(ws[0]), Tail(ws[1..]));
  }

  lemma TextsCons(ws: seq<Word>)
    requires ws != []
    ensures Texts(ws) == [WordText(ws[0])] + Texts(ws[1..])
  {
  }

  lemma ReadWord(ws: seq<Word>, all: seq<Mark>, r: nat)
    requires ws != [] && r <= |all| && all[r..] == Marks(Texts(ws))
    ensures var n := |WordText(ws[0])|;
            && Chars(WordText(ws[0])) <= all[r..] && r + n < |all|
            && all[r + n..] == [End] + Marks(Texts(ws[1..]))
  {
    TextsCons(ws);
    assert Texts(ws)[1..] == Texts(ws[1..]);
    var w := Chars(WordText(ws[0]));
    assert all[r..] == w + ([End] + Marks(Texts(ws[1..])));
    assert all[r + |w|..] == all[r..][|w|..];
  }

  lemma FeedTail(p: Scan, rest: seq<Word>)
    requires rest != []
    ensures Feed(p, Tail(rest)) == Feed(Step(p, ' '), Command(rest))
  {
    FeedAppend(p, " ", Command(rest));
    FeedOne(p, ' ');
  }

  /** Once behind at the end of a word, the scanner does not produce all words in the end. */
  lemma {:induction false} NeverCatchesUp(p: Scan, rest: seq<Word>, all: seq<Mark>, r: nat)
    requires Behind(p, all, r) && all[r..] == [End] + Marks(Texts(rest))
    ensures Marks(Finish(Feed(p, Tail(rest)))) != all
    decreases |rest|
  {
    if rest == [] {
      FinishEmits(p);
      assert |all| == r + 1;
    } else {
      FeedTail(p, rest);
      if Emitted(Step(p, ' ')) <= all {
        AfterSeparator(p, all, r, Marks(Texts(rest)));
        BehindAtWord(Step(p, ' '), rest, all, r + 1);
      } else {
        ProducedIsKept(Step(p, ' '), Command(rest), all);
      }
    }
  }

  /** What is wrong once is wrong in the end. */
  lemma ProducedIsKept(p: Scan, s: string, all: seq<Mark>)
    requires !(Emitted(p) <= all)
    ensures Marks(Finish(Feed(p, s))) != all
  {
    FeedEmits(p, s);
    FinishEmits(Feed(p, s));
  }

  lemma AfterSeparator(p: Scan, all: seq<Mark>, r: nat, more: seq<Mark>)
    requires Behind(p, all, r) && all[r..] == [End] + more && Emitted(Step(p, ' ')) <= all
    ensures Behind(Step(p, ' '), all, r + 1) && NoQuoteDue(Step(p, ' '), all, r + 1) && all[r + 1..] == more
  {
    assert all[r] == all[r..][0] && all[r + 1..] == all[r..][1..];
    SeparatorStep(p, all, r);
  }

  lemma {:induction false} BehindAtWord(q: Scan, ws: seq<Word>, all: seq<Mark>, r: nat)
    requires ws != [] && Behind(q, all, r) && NoQuoteDue(q, all, r) && all[r..] == Marks(Texts(ws))
    ensures Marks(Finish(Feed(q, Command(ws)))) != all
    decreases |ws|, 0
  {
    CommandHead(q, ws);
    ReadWord(ws, all, r);
    var q' := Feed(q, Printed(ws[0]));
    FeedEmits(q', Tail(ws[1..]));
    FinishEmits(Feed(q, Command(ws)));
    if Emitted(q') <= all {
      WordStaysBehind(q, ws[0], all, r);
      NeverCatchesUp(q', ws[1..], all, r + |WordText(ws[0])|);
    }
  }

  lemma PlainStep(p: Scan, c: char)
    requires Outside(p.state) && IsPlain(c)
    ensures Step(p, c).state.Basic? && |Emitted(Step(p, c))| == |Emitted(p)| + 1
  {
    StepEmits(p, c);
  }

  /** Outside quotes, a scanner that has produced all it has read falls behind at a character that is not
      plain ... */
  lemma SpecialStep(p: Scan, c: char, all: seq<Mark>)
    requires Outside(p.state) && !IsPlain(c) && Emitted(Step(p, c)) <= all
    requires var r := |Emitted(p)|; r < |all| && Emitted(p) <= all && all[r] == Char(c)
    ensures var r := |Emitted(p)| + 1; Behind(Step(p, c), all, r) && NoQuoteDue(Step(p, c), all, r)
  {
    StepEmits(p, c);
  }

  /** ... and so at the first one in a text. */
  lemma {:induction false} SpecialFallsBehind(p: Scan, s: string, all: seq<Mark>)
    requires Outside(p.state) && !Plain(s)
    requires var r := |Emitted(p)|; r <= |all| && Emitted(p) <= all && Chars(s) <= all[r..]
    requires Emitted(Feed(p, s)) <= all
    ensures var r := |Emitted(p)| + |s|; Behind(Feed(p, s), all, r) && NoQuoteDue(Feed(p, s), all, r)
    decreases |s|
  {
    var r, q := |Emitted(p)|, Step(p, s[0]);
    ReadOne(s, all, r);
    FeedEmits(q, s[1..]);
    if IsPlain(s[0]) {
      PlainStep(p, s[0]);
      SpecialFallsBehind(q, s[1..], all);
    } else {
      SpecialStep(p, s[0], all);
      RawStaysBehind(q, s[1..], all, r + 1);
    }
  }

  /** A command whose first word is bad is not read back; an empty word does no harm only when the
      scanner is still in its initial state and another word follows. */
  lemma BadFirst(p: Scan, ws: seq<Word>)
    requires ws != [] && !Good(ws[0]) && Outside(p.state) && p.arg == ""
    requires p.state.Basic? ==> !(WordText(ws[0]) == "" && |ws| >= 2)
    ensures Finish(Feed(p, Command(ws))) != p.args + Texts(ws)
  {
    BadFirstMarks(p, ws, Emitted(p) + Marks(Texts(ws)));
    AllMarks(p, Texts(ws));
  }

  lemma AllMarks(p: Scan, ts: seq<string>)
    requires p.arg == ""
    ensures Marks(p.args + ts) == Emitted(p) + Marks(ts)
  {
    MarksAppend(p.args, ts);
    assert Chars("") == [];
    assert Emitted(p) == Marks(p.args);
  }

  lemma BadFirstMarks(p: Scan, ws: seq<Word>, all: seq<Mark>)
    requires ws != [] && !Good(ws[0]) && Outside(p.state) && p.arg == ""
    requires p.state.Basic? ==> !(WordText(ws[0]) == "" && |ws| >= 2)
    requires all == Emitted(p) + Marks(Texts(ws))
    ensures Marks(Finish(Feed(p, Command(ws)))) != all
  {
    if WordText(ws[0]) != "" {
      NonEmptyFallsBehind(p, ws, all);
    } else if |ws| == 1 {
      LastIsEmpty(p, ws, all);
    } else {
      EmptyFallsBehind(p, ws, all);
    }
  }

  lemma NonEmptyFallsBehind(p: Scan, ws: seq<Word>, all: seq<Mark>)
    requires ws != [] && !Good(ws[0]) && WordText(ws[0]) != "" && Outside(p.state)
    requires all == Emitted(p) + Marks(Texts(ws))
    ensures Marks(Finish(Feed(p, Command(ws)))) != all
  {
    var r, q, n := |Emitted(p)|, Feed(p, Printed(ws[0])), |WordText(ws[0])|;
    ReadWord(ws, all, r);
    CommandHead(p, ws);
    WordThenTail(p, ws);
    if Emitted(q) <= all {
      BadWord(p, ws[0], all);
      NeverCatchesUp(q, ws[1..], all, r + n);
    }
  }

  /** What a word produces is part of what the command produces. */
  lemma WordThenTail(p: Scan, ws: seq<Word>)
    requires ws != []
    ensures Emitted(Feed(p, Printed(ws[0]))) <= Marks(Finish(Feed(p, Command(ws))))
  {
    CommandHead(p, ws);
    FeedEmits(Feed(p, Printed(ws[0])), Tail(ws[1..]));
    FinishEmits(Feed(p, Command(ws)));
  }

  lemma BadWord(p: Scan, w: Word, all: seq<Mark>)
    requires !Good(w) && WordText(w) != "" && Outside(p.state)
    requires var r := |Emitted(p)|; r <= |all| && Emitted(p) <= all && Chars(WordText(w)) <= all[r..]
    requires Emitted(Feed(p, Printed(w))) <= all
    ensures Behind(Feed(p, Printed(w)), all, |Emitted(p)| + |WordText(w)|)
  {
    if Quoted(w) {
      BadPrefix(p, w, all);
    } else {
      SpecialFallsBehind(p, WordText(w), all);
    }
  }

  lemma BadPrefix(p: Scan, w: Word, all: seq<Mark>)
    requires Quoted(w) && !Plain(w.prefix) && Outside(p.state)
    requires var r := |Emitted(p)|; r <= |all| && Emitted(p) <= all && Chars(WordText(w)) <= all[r..]
    requires Emitted(Feed(p, Printed(w))) <= all
    ensures Behind(Feed(p, Printed(w)), all, |Emitted(p)| + |WordText(w)|)
  {
    var r, q := |Emitted(p)|, Feed(p, w.prefix);
    ReadPrefix(w.prefix, w.value.s, all, r);
    FeedPrinted(p, w);
    FeedEmits(q, "\"" + Escape(w.value.s) + "\"");
    SpecialFallsBehind(p, w.prefix, all);
    QuotesStayBehind(q, w.value.s, all, r + |w.prefix|);
  }

  /** An empty word is lost by a scanner in its whitespace state, ... */
  lemma EmptyFallsBehind(p: Scan, ws: seq<Word>, all: seq<Mark>)
    requires |ws| >= 2 && WordText(ws[0]) == "" && p.state.White? && p.arg == ""
    requires all == Emitted(p) + Marks(Texts(ws))
    ensures Marks(Finish(Feed(p, Command(ws)))) != all
  {
    var rest, r := ws[1..], |Emitted(p)|;
    EmptyWord(ws);
    FeedAppend(p, " ", Command(rest));
    FeedOne(p, ' ');
    ReadWord(ws, all, r);
    assert all[r..] == [End] + Marks(Texts(rest));
    assert all[r + 1..] == all[r..][1..];
    BehindAtWord(p, rest, all, r + 1);
  }

  /** ... and at the end of the command. */
  lemma LastIsEmpty(p: Scan, ws: seq<Word>, all: seq<Mark>)
    requires |ws| == 1 && WordText(ws[0]) == "" && p.arg == ""
    requires all == Emitted(p) + Marks(Texts(ws))
    ensures Marks(Finish(Feed(p, Command(ws)))) != all
  {
    assert Command(ws) == Printed(ws[0]) == "";
    FinishEmits(p);
    ReadWord(ws, all, |Emitted(p)|);
  }

  lemma EmptyWord(ws: seq<Word>)
    requires |ws| >= 2 && WordText(ws[0]) == ""
    ensures Command(ws) == " " + Command(ws[1..])
  {
    assert Printed(ws[0]) == "";
  }

  // ---------------------------------------------------------------- the round trip

  /** After a separator, a command is read back exactly when all its words are good. */
  lemma {:induction false} RoundTripFrom(p: Scan, ws: seq<Word>)
    requires p.arg == "" && Outside(p.state)
    requires p.state.Basic? && |ws| >= 2 ==> WordText(ws[0]) != ""
    ensures Finish(Feed(p, Command(ws))) == p.args + Texts(ws) <==> AllGood(ws)
    decreases |ws|
  {
    if ws == [] {
    } else if !Good(ws[0]) {
      BadFirst(p, ws);
    } else {
      var w, rest := ws[0], ws[1..];
      TextsCons(ws);
      if rest == [] {
        FeedGood(p, w);
        GoodText(w);
        assert p.arg + WordText(w) == WordText(w);
      } else {
        GoodStep(p, w, rest);
        assert [w] + rest == ws;
        RoundTripFrom(Scan(White, "", p.args + [WordText(w)]), rest);
        Regroup(p.args, [WordText(w)], Texts(rest));
        AllGoodCons(w, rest);
      }
    }
  }

  lemma AllGoodCons(w: Word, rest: seq<Word>)
    ensures AllGood([w] + rest) <==> Good(w) && AllGood(rest)
  {
    if AllGood([w] + rest) {
      assert Good(([w] + rest)[0]);
      forall i | 0 <= i < |rest| ensures Good(rest[i]) {
        assert ([w] + rest)[i + 1] == rest[i];
      }
    }
  }

  lemma GoodStep(p: Scan, w: Word, rest: seq<Word>)
    requires rest != [] && Good(w) && p.arg == "" && Outside(p.state)
    ensures Feed(p, Command([w] + rest)) == Feed(Scan(White, "", p.args + [WordText(w)]), Command(rest))
  {
    assert ([w] + rest)[1..] == rest;
    CommandHead(p, [w] + rest);
    FeedGood(p, w);
    FeedAppend(Feed(p, Printed(w)), " ", Command(rest));
    FeedOne(Feed(p, Printed(w)), ' ');
    assert p.arg + WordText(w) == WordText(w);
  }

  lemma GoodText(w: Word)
    requires Good(w)
    ensures WordText(w) != ""
  {
  }

  lemma EmptyAtStart(ws: seq<Word>)
    requires |ws| >= 2 && WordText(ws[0]) == ""
    ensures !Good(ws[0])
    ensures Feed(Start, Command(ws)) == Feed(Scan(White, "", [""]), Command(ws[1..]))
  {
    EmptyWord(ws);
    FeedSpaceAtStart(Command(ws[1..]));
  }

  lemma FeedSpaceAtStart(s: string)
    ensures Feed(Start, " " + s) == Feed(Scan(White, "", [""]), s)
  {
    FeedAppend(Start, " ", s);
    FeedOne(Start, ' ');
    assert [] + [""] == [""];
  }

  /** `splitCommand` undoes the printing of exactly the faithful word lists. */
  lemma RoundTripIff(ws: seq<Word>)
    ensures Split(Command(ws)) == Texts(ws) <==> Faithful(ws)
  {
    if |ws| >= 2 && WordText(ws[0]) == "" {
      var rest := ws[1..];
      EmptyAtStart(ws);
      RoundTripFrom(Scan(White, "", [""]), rest);
      TextsCons(ws);
    } else {
      RoundTripFrom(Start, ws);
      assert [] + Texts(ws) == Texts(ws);
    }
  }
}
