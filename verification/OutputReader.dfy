/**
 * Matching the output of a process (scripts/Expect.py, class `reader`): one thread appends what the
 * process writes to a buffer, another consumes it with `match`, for `expect` and `expectall`.
 *
 * Regular-expression search is a parameter that gives the bounds of a match.  The interleavings of
 * passes, appended characters, timeouts and the end of the output are the runs of a state machine, whose
 * steps are the methods of `Reader`.
 */
module OutputReader {
  import opened Common

  /** An entry of the pattern list: the TIMEOUT marker, or a regular expression. */
  datatype Pattern = Timeout | Regex(text: string)

  type Search = (string, string) -> Option<(nat, nat)>

  ghost predicate ValidSearch(search: Search) {
    forall r, s :: search(r, s).Some? ==> search(r, s).value.0 <= search(r, s).value.1 <= |s|
  }

  /** The match of one entry: markers are passed over, and an empty buffer is not searched. */
  function Hit(search: Search, p: Pattern, buf: string): Option<(nat, nat)> {
    if p.Timeout? || buf == "" then None else search(p.text, buf)
  }

  ghost predicate IsFirstHit(search: Search, patterns: seq<Pattern>, buf: string, k: nat) {
    && k < |patterns| && Hit(search, patterns[k], buf).Some?
    && forall i :: 0 <= i < k ==> Hit(search, patterns[i], buf).None?
  }

  ghost predicate NoHit(search: Search, patterns: seq<Pattern>, buf: string) {
    forall i :: 0 <= i < |patterns| ==> Hit(search, patterns[i], buf).None?
  }

  /** The result of one pass over the patterns. */
  datatype Pass =
    | Matched(index: nat, before: string, matched: string, after: string) // expect succeeds
    | AllMatched(end: nat)                                                // expectall succeeds
    | Progress(index: nat, end: nat)                                      // one of several was found
    | Nothing

  function Farthest(maxEnd: Option<nat>, end: nat): nat {
    if maxEnd.None? || end > maxEnd.value then end else maxEnd.value
  }

  function Remove<T>(s: seq<T>, k: nat): seq<T>
    requires k < |s|
  {
    s[..k] + s[k + 1..]
  }

  /** What a pass over `patterns` must find. */
  ghost predicate IsPass(search: Search, patterns: seq<Pattern>, buf: string, maxEnd: Option<nat>, matchAll: bool,
                         pass: Pass)
  {
    match pass
    case Nothing => NoHit(search, patterns, buf)
    case Matched(k, before, matched, after) =>
      && !matchAll && IsFirstHit(search, patterns, buf, k)
      && buf == before + matched + after
      && Hit(search, patterns[k], buf) == Some((|before|, |before| + |matched|))
    case Progress(k, end) =>
      && matchAll && |patterns| > 1 && IsFirstHit(search, patterns, buf, k)
      && end == Farthest(maxEnd, Hit(search, patterns[k], buf).value.1)
    case AllMatched(end) =>
      && matchAll && |patterns| == 1 && IsFirstHit(search, patterns, buf, 0)
      && end == Farthest(maxEnd, Hit(search, patterns[0], buf).value.1)
  }

  // ---------------------------------------------------------------- interleavings

  /** A pattern that `expectall` has found: in which text, and where the match ended. */
  datatype Found = Found(pattern: Pattern, text: string, end: nat)

  /** A call of `match` in progress; `base` is what had been consumed when it began. */
  datatype Call = Call(original: seq<Pattern>, patterns: seq<Pattern>, matchAll: bool, maxEnd: Option<nat>,
                       found: seq<Found>, base: string)

  /** What `read(1)` returns: a string in text mode, a bytes object otherwise. */
  datatype Unit = Text(c: char) | Bytes(c: char)

  datatype World = World(written: seq<Unit>, buf: string, consumed: string, finish: bool, call: Option<Call>)

  const InitWorld := World([], "", "", false, None)

  datatype Event =
    | Write(u: Unit)
    | Close
    | Begin(patterns: seq<Pattern>, matchAll: bool)
    | Look(pass: Pass)
    | GiveUp              // the timeout of match

  /** `if c == '\r': continue` comes before `c.decode()`, and no bytes object is equal to a string. */
  function Decoded(u: Unit): string {
    if u == Text('\r') then "" else [u.c]
  }

  /** The text that was read: without the carriage returns that were read as text. */
  function Strip(s: seq<Unit>): string {
    if s == [] then "" else Strip(s[..|s| - 1]) + Decoded(s[|s| - 1])
  }

  ghost predicate Enabled(search: Search, w: World, e: Event) {
    match e
    case Write(_) => !w.finish
    case Close => !w.finish
    case Begin(_, _) => w.call.None?
    case Look(pass) =>
      w.call.Some? && IsPass(search, w.call.value.patterns, w.buf, w.call.value.maxEnd, w.call.value.matchAll, pass)
    case GiveUp => w.call.Some?
  }

  /** The call after a pass that found pattern k. */
  function Progressed(search: Search, c: Call, buf: string, k: nat, end: nat): Call
    requires k < |c.patterns| && Hit(search, c.patterns[k], buf).Some?
  {
    var p := c.patterns[k];
    c.(patterns := Remove(c.patterns, k), maxEnd := Some(end),
       found := c.found + [Found(p, buf, Hit(search, p, buf).value.1)])
  }

  function Apply(search: Search, w: World, e: Event): World
    requires Enabled(search, w, e)
  {
    match e
    case Write(u) => w.(written := w.written + [u], buf := w.buf + Decoded(u))
    case Close => w.(finish := true)
    case Begin(patterns, matchAll) => w.(call := Some(Call(patterns, patterns, matchAll, None, [], w.consumed)))
    case GiveUp => w.(call := None)
    case Look(pass) =>
      (match pass
       case Nothing => if w.finish then w.(call := None) else w
       case Matched(_, before, matched, after) =>
         w.(buf := after, consumed := w.consumed + (before + matched), call := None)
       case Progress(k, end) => w.(call := Some(Progressed(search, w.call.value, w.buf, k, end)))
       case AllMatched(end) =>
         if end <= |w.buf| then w.(buf := w.buf[end..], consumed := w.consumed + w.buf[..end], call := None)
         else w.(call := None))
  }

  // ---------------------------------------------------------------- the object

  /** The reader, with the local variables of the `match` in progress.  Each method is one section of the
      code under the lock, and does to the fields what its event does to a `World`. */
  class Reader {
    var buf: string
    var finish: bool
    var call: Option<Call>

    /** Everything the process has written, and what was consumed of it; the code keeps neither. */
    ghost var written: seq<Unit>
    var consumed: string

    ghost function Value(): World
      reads this
    {
      World(written, buf, consumed, finish, call)
    }

    constructor ()
      ensures Value() == InitWorld
    {
      buf, finish, call, written, consumed := "", false, None, [], "";
    }

    /** `run`, for one character. */
    method Append(ghost search: Search, u: Unit)
      requires !finish
      modifies this
      ensures Value() == Apply(search, old(Value()), Write(u))
    {
      written := written + [u];
      if u == Text('\r') {
        assert buf + "" == buf;
        return;
      }
      buf := buf + [u.c];
    }

    /** `run`, at the end of the output. */
    method EndOfOutput(ghost search: Search)
      requires !finish
      modifies this
      ensures Value() == Apply(search, old(Value()), Close)
    {
      finish := true;
    }

    /** The beginning of `match`. */
    method BeginMatch(ghost search: Search, patterns: seq<Pattern>, matchAll: bool)
      requires call.None?
      modifies this
      ensures Value() == Apply(search, old(Value()), Begin(patterns, matchAll))
    {
      call := Some(Call(patterns, patterns, matchAll, None, [], consumed));
    }

    /** The loop of lines 241-295, which stops at the first entry that matches. */
    method FindFirst(search: Search, patterns: seq<Pattern>) returns (k: nat, m: Option<(nat, nat)>)
      ensures m.None? ==> NoHit(search, patterns, buf)
      ensures m.Some? ==> IsFirstHit(search, patterns, buf, k) && m == Hit(search, patterns[k], buf)
    {
      k, m := 0, None;
      for index := 0 to |patterns|
        invariant m == None && forall i :: 0 <= i < index ==> Hit(search, patterns[i], buf).None?
      {
        var p := patterns[index];
        if p.Timeout? {
          continue;
        }
        if buf == "" {
          break;
        }
        m := search(p.text, buf);
        if m.Some? {
          return index, m;
        }
      }
    }

    /** One pass over the patterns, and what follows from it. */
    method OnePass(search: Search) returns (pass: Pass)
      requires call.Some? && ValidSearch(search)
      requires call.value.maxEnd.Some? ==> call.value.maxEnd.value <= |buf|
      modifies this
      ensures Enabled(search, old(Value()), Look(pass)) && Value() == Apply(search, old(Value()), Look(pass))
    {
      var c := call.value;
      var k, m := FindFirst(search, c.patterns);
      if m.None? {
        if finish {
          call := None;
        }
        return Nothing;
      }
      var before, matched, after := buf[..m.value.0], buf[m.value.0..m.value.1], buf[m.value.1..];
      if c.matchAll {
        var end := Farthest(c.maxEnd, m.value.1);
        if |c.patterns| == 1 {
          consumed := consumed + buf[..end];
          buf := buf[end..];
          call := None;
          return AllMatched(end);
        }
        call := Some(Progressed(search, c, buf, k, end));
        return Progress(k, end);
      }
      assert buf == before + matched + after;
      consumed := consumed + (before + matched);
      buf := after;
      call := None;
      return Matched(k, before, matched, after);
    }

    /** The timeout of `match`. */
    method TimeOut(ghost search: Search)
      requires call.Some?
      modifies this
      ensures Value() == Apply(search, old(Value()), GiveUp)
    {
      call := None;
    }
  }

  // ---------------------------------------------------------------- runs

  ghost predicate IsRun(search: Search, ws: seq<World>, es: seq<Event>) {
    && |ws| == |es| + 1 && ws[0] == InitWorld
    && forall j :: 0 <= j < |es| ==> Leads(search, ws[j], es[j], ws[j + 1])
  }

  ghost predicate Leads(search: Search, w: World, e: Event, w': World) {
    Enabled(search, w, e) && w' == Apply(search, w, e)
  }

  function PatternsOf(found: seq<Found>): (r: seq<Pattern>)
    ensures |r| == |found|
  {
    seq(|found|, i requires 0 <= i < |found| => found[i].pattern)
  }

  /** A real match, in a text that the buffer still begins with. */
  ghost predicate Genuine(search: Search, f: Found, buf: string) {
    && f.text <= buf
    && Hit(search, f.pattern, f.text).Some? && Hit(search, f.pattern, f.text).value.1 == f.end
  }

  ghost predicate IsFarthest(found: seq<Found>, end: nat) {
    && (forall i :: 0 <= i < |found| ==> found[i].end <= end)
    && exists i :: 0 <= i < |found| && found[i].end == end
  }

  /** What has been found so far accounts for the patterns that are gone. */
  ghost predicate CallInv(search: Search, c: Call, buf: string) {
    && multiset(c.original) == multiset(c.patterns) + multiset(PatternsOf(c.found))
    && (forall i :: 0 <= i < |c.found| ==> Genuine(search, c.found[i], buf))
    && (if c.maxEnd.None? then c.found == [] else IsFarthest(c.found, c.maxEnd.value) && c.maxEnd.value <= |buf|)
  }

  ghost predicate Inv(search: Search, w: World) {
    && Strip(w.written) == w.consumed + w.buf
    && (w.call.Some? ==> CallInv(search, w.call.value, w.buf) && w.call.value.base == w.consumed)
  }

  lemma StripAppend(s: seq<Unit>, u: Unit)
    ensures Strip(s + [u]) == Strip(s) + Decoded(u)
  {
    assert (s + [u])[..|s|] == s;
  }

  /** What is read is what was written, but for the carriage returns that were read as text: each of those
      is left out wherever it stands, and nothing else is. */
  lemma {:induction false} StripMeaning(s: seq<Unit>, u: Unit, more: seq<Unit>)
    ensures Strip(s + [u] + more) == Strip(s) + (if u == Text('\r') then "" else [u.c]) + Strip(more)
    ensures Strip([]) == ""
  {
    if more == [] {
      assert s + [u] + more == s + [u];
      StripAppend(s, u);
      assert Strip(s) + Decoded(u) + "" == Strip(s) + Decoded(u);
    } else {
      var k := |more| - 1;
      StripMeaning(s, u, more[..k]);
      assert (s + [u] + more)[..|s| + 1 + k] == s + [u] + more[..k];
      Regroup(Strip(s) + Decoded(u), Strip(more[..k]), Decoded(more[k]));
    }
  }

  /** The TIMEOUT marker matches nothing, and nothing matches in an empty buffer, not even a pattern that
      matches the empty string; otherwise a pass finds an entry exactly when the search of one does. */
  lemma PassFinds(search: Search, patterns: seq<Pattern>, buf: string, maxEnd: Option<nat>, matchAll: bool, pass: Pass)
    requires IsPass(search, patterns, buf, maxEnd, matchAll, pass)
    ensures pass.Nothing? <==> buf == "" || forall i :: 0 <= i < |patterns| && patterns[i].Regex? ==>
                                              search(patterns[i].text, buf).None?
  {
    if !pass.Nothing? {
      var k := match pass
               case Matched(k, _, _, _) => k
               case Progress(k, _) => k
               case AllMatched(_) => 0;
      assert Hit(search, patterns[k], buf).Some?;
    } else if buf != "" {
      forall i | 0 <= i < |patterns| && patterns[i].Regex? ensures search(patterns[i].text, buf).None? {
        assert Hit(search, patterns[i], buf).None?;
      }
    }
  }

  /** The step ends the call: its timeout, a pass that found all it had to find, or one that found nothing
      when there is no more output. */
  predicate Ends(w: World, e: Event) {
    || e.GiveUp?
    || (e.Look? && (e.pass.Matched? || e.pass.AllMatched? || (e.pass.Nothing? && w.finish)))
  }

  /** A call is in progress from its beginning to the step that ends it; a pass that finds nothing while there
      may be more output changes nothing. */
  lemma CallStep(search: Search, w: World, e: Event)
    requires Enabled(search, w, e)
    ensures var w' := Apply(search, w, e);
            && (w'.call.Some? <==> e.Begin? || (w.call.Some? && !Ends(w, e)))
            && (e.Look? && e.pass.Nothing? && !w.finish ==> w' == w)
            && (w'.finish <==> w.finish || e.Close?)
            && w'.written == w.written + if e.Write? then [e.u] else []
  {
  }

  /** A call in progress is the one that was begun: it has its patterns and its mode to the end. */
  lemma {:induction false} CallIsAsBegun(search: Search, ws: seq<World>, es: seq<Event>, k: nat, m: nat)
    requires IsRun(search, ws, es) && k < m < |ws| && es[k].Begin?
    requires forall i :: k < i <= m ==> ws[i].call.Some?
    ensures ws[m].call.value.original == es[k].patterns && ws[m].call.value.matchAll == es[k].matchAll
    ensures m == k + 1 ==> ws[m].call.value.patterns == es[k].patterns && ws[m].call.value.maxEnd.None?
  {
    assert Leads(search, ws[m - 1], es[m - 1], ws[m]);
    if m > k + 1 {
      CallIsAsBegun(search, ws, es, k, m - 1);
    }
  }

  /** The output is at its end exactly when that was read, and nothing is read after it. */
  lemma {:induction false} FinishIff(search: Search, ws: seq<World>, es: seq<Event>, j: nat)
    requires IsRun(search, ws, es) && j < |ws|
    ensures ws[j].finish <==> exists k :: 0 <= k < j && es[k].Close?
    ensures forall k :: 0 <= k < j && es[k].Close? ==> forall i :: k < i < j ==> !es[i].Write?
  {
    if j > 0 {
      FinishIff(search, ws, es, j - 1);
      assert Leads(search, ws[j - 1], es[j - 1], ws[j]);
      CallStep(search, ws[j - 1], es[j - 1]);
    }
  }

  lemma RemoveOne<T>(s: seq<T>, k: nat)
    requires k < |s|
    ensures multiset(s) == multiset(Remove(s, k)) + multiset{s[k]}
  {
    assert s == s[..k] + [s[k]] + s[k + 1..];
  }

  /** Finding one more pattern keeps the account, and the farthest end stays within the buffer. */
  lemma ProgressKeeps(search: Search, c: Call, buf: string, k: nat)
    requires ValidSearch(search) && CallInv(search, c, buf)
    requires k < |c.patterns| && Hit(search, c.patterns[k], buf).Some?
    ensures var end := Farthest(c.maxEnd, Hit(search, c.patterns[k], buf).value.1);
            CallInv(search, Progressed(search, c, buf, k, end), buf)
  {
    var m := Hit(search, c.patterns[k], buf).value.1;
    var end := Farthest(c.maxEnd, m);
    var c' := Progressed(search, c, buf, k, end);
    RemoveOne(c.patterns, k);
    assert PatternsOf(c'.found) == PatternsOf(c.found) + [c.patterns[k]];
    assert c'.found[|c.found|].end == m && Genuine(search, c'.found[|c.found|], buf);
    FarthestOf(c.found, c.maxEnd, Found(c.patterns[k], buf, m));
  }

  lemma FarthestOf(found: seq<Found>, maxEnd: Option<nat>, f: Found)
    requires if maxEnd.None? then found == [] else IsFarthest(found, maxEnd.value)
    ensures IsFarthest(found + [f], Farthest(maxEnd, f.end))
  {
    var end := Farthest(maxEnd, f.end);
    assert (found + [f])[|found|] == f;
    if end != f.end {
      var i :| 0 <= i < |found| && found[i].end == maxEnd.value;
      assert (found + [f])[i].end == end;
    }
  }

  lemma WriteKeeps(search: Search, w: World, u: Unit)
    requires Inv(search, w) && Enabled(search, w, Write(u))
    ensures Inv(search, Apply(search, w, Write(u)))
  {
    var w' := Apply(search, w, Write(u));
    StripAppend(w.written, u);
    Regroup(w.consumed, w.buf, Decoded(u));
    if w.call.Some? {
      var found := w.call.value.found;
      forall i | 0 <= i < |found| ensures Genuine(search, found[i], w'.buf) {
        assert Genuine(search, found[i], w.buf);
      }
    }
  }

  lemma LookKeeps(search: Search, w: World, pass: Pass)
    requires ValidSearch(search) && Inv(search, w) && Enabled(search, w, Look(pass))
    ensures Inv(search, Apply(search, w, Look(pass)))
  {
    match pass
    case Progress(k, end) => ProgressKeeps(search, w.call.value, w.buf, k);
    case Matched(_, before, matched, after) => Regroup(w.consumed, before + matched, after);
    case AllMatched(end) =>
      if end <= |w.buf| {
        Regroup(w.consumed, w.buf[..end], w.buf[end..]);
        assert w.buf == w.buf[..end] + w.buf[end..];
      }
    case Nothing =>
  }

  lemma StepKeeps(search: Search, w: World, e: Event)
    requires ValidSearch(search) && Inv(search, w) && Enabled(search, w, e)
    ensures Inv(search, Apply(search, w, e))
  {
    match e
    case Write(u) => WriteKeeps(search, w, u);
    case Look(pass) => LookKeeps(search, w, pass);
    case _ =>
  }

  /** Under every interleaving, what was consumed followed by the buffer is all that was read. */
  lemma {:induction false} InvAlways(search: Search, ws: seq<World>, es: seq<Event>, j: nat)
    requires ValidSearch(search) && IsRun(search, ws, es) && j < |ws|
    ensures Inv(search, ws[j])
  {
    if j > 0 {
      InvAlways(search, ws, es, j - 1);
      assert Leads(search, ws[j - 1], es[j - 1], ws[j]);
      StepKeeps(search, ws[j - 1], es[j - 1]);
    }
  }

  /** When `expectall` succeeds, each of its patterns was found exactly once, in the buffer or in an
      earlier state of it, and exactly the text up to the farthest match end is consumed. */
  lemma ExpectAllConsumes(search: Search, ws: seq<World>, es: seq<Event>, j: nat) returns (found: seq<Found>)
    requires ValidSearch(search) && IsRun(search, ws, es) && j < |es| && es[j].Look? && es[j].pass.AllMatched?
    ensures var w, w', end := ws[j], ws[j + 1], es[j].pass.end;
            && multiset(PatternsOf(found)) == multiset(w.call.value.original)
            && (forall i :: 0 <= i < |found| ==> Genuine(search, found[i], w.buf))
            && IsFarthest(found, end) && end <= |w.buf|
            && w'.consumed == w.call.value.base + w.buf[..end] && w'.buf == w.buf[end..]
  {
    InvAlways(search, ws, es, j);
    assert Leads(search, ws[j], es[j], ws[j + 1]);
    var c := ws[j].call.value;
    ProgressKeeps(search, c, ws[j].buf, 0);
    var c' := Progressed(search, c, ws[j].buf, 0, es[j].pass.end);
    found := c'.found;
    assert c'.patterns == [];
  }

  /** When `expect` succeeds, the first entry that matches is taken and the text up to the end of its
      match is consumed. */
  lemma ExpectConsumes(search: Search, ws: seq<World>, es: seq<Event>, j: nat)
    requires ValidSearch(search) && IsRun(search, ws, es) && j < |es| && es[j].Look? && es[j].pass.Matched?
    ensures var w, w', pass := ws[j], ws[j + 1], es[j].pass;
            && IsFirstHit(search, w.call.value.patterns, w.buf, pass.index)
            && w.buf == pass.before + pass.matched + pass.after
            && w'.consumed == w.call.value.base + (pass.before + pass.matched) && w'.buf == pass.after
  {
    InvAlways(search, ws, es, j);
    assert Leads(search, ws[j], es[j], ws[j + 1]);
  }

  /** A call that ends without success consumes nothing: the buffer has only grown since it began. */
  lemma {:induction false} CallKeepsText(search: Search, ws: seq<World>, es: seq<Event>, k: nat, j: nat)
    requires IsRun(search, ws, es) && k < j < |ws| && es[k].Begin?
    requires forall i :: k < i <= j ==> ws[i].call.Some?
    ensures ws[j].consumed == ws[k].consumed && ws[k].buf <= ws[j].buf
  {
    assert Leads(search, ws[j - 1], es[j - 1], ws[j]);
    if j > k + 1 {
      CallKeepsText(search, ws, es, k, j - 1);
    }
  }

  lemma TimeoutConsumesNothing(search: Search, ws: seq<World>, es: seq<Event>, k: nat, m: nat)
    requires IsRun(search, ws, es) && k < m < |es| && es[k].Begin?
    requires forall i :: k < i <= m ==> ws[i].call.Some?
    requires es[m].GiveUp? || es[m] == Look(Nothing)
    ensures ws[m + 1].consumed == ws[k].consumed && ws[k].buf <= ws[m + 1].buf
  {
    CallKeepsText(search, ws, es, k, m);
    assert Leads(search, ws[m], es[m], ws[m + 1]);
  }
}
