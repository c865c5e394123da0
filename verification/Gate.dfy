/**
 The gate that turns whole-file reads and symbol-shaped searches away, once, and remembers per
 session what it has said. What a call asks for is decided by its arguments and the file system;
 the gate's own state decides whether to say so.
 */
module Gate {
  import opened Common

  const WHOLE_FILE_IS_FINE: nat := 300
  const WHOLE_FILE_BUDGET: nat := 5
  const WHOLE_FILE_BUDGET_UNPROVEN: nat := 3
  const GIVE_UP_AFTER: nat := 3

  datatype Host = Host1 | Host2

  /** A tool call as the gate reads it. `large` is a whole read of 300 lines or more in the project. */
  datatype Call =
    | Symbolic(moved: bool)
    | Shell(command: string, large: bool, asksAboutSymbols: bool)
    | Grep(pattern: string, identifier: bool, inProject: bool)
    | Read(path: string, wholeSourceFile: bool, lines: nat)
    | OtherTool

  datatype Refusal = MovedTool | LargeShell | LargeRead | ShellGuess | GrepGuess | SmallFile | OverBudget

  /** The refusals that rest on a guess about intent, and are said to give way on another try. */
  predicate Guess(r: Refusal) { r.ShellGuess? || r.GrepGuess? || r.SmallFile? || r.OverBudget? }

  datatype State = State(
    alreadyNudged: set<string>, nudgedAboutSmallFiles: set<string>, usesSymbolicTools: set<string>,
    spent: map<string, nat>, unheeded: map<string, nat>)

  const FRESH := State({}, {}, {}, map[], map[])

  function Count(m: map<string, nat>, session: string): nat { if session in m then m[session] else 0 }

  function BudgetFor(s: State, session: string): nat {
    if session in s.usesSymbolicTools then WHOLE_FILE_BUDGET else WHOLE_FILE_BUDGET_UNPROVEN
  }

  predicate WorthNudging(s: State, session: string) {
    session in s.usesSymbolicTools || Count(s.unheeded, session) < GIVE_UP_AFTER
  }

  function Unheeded(s: State, session: string): State {
    s.(unheeded := s.unheeded[session := Count(s.unheeded, session) + 1])
  }

  function Head(text: string, n: nat): string { if |text| <= n then text else text[..n] }

  function Decide(host: Host, s: State, session: string, call: Call): (State, Option<Refusal>) {
    match call
    case Symbolic(moved) =>
      (s.(usesSymbolicTools := s.usesSymbolicTools + {session}, unheeded := s.unheeded[session := 0]),
       if moved then Some(MovedTool) else None)
    case Shell(command, large, asks) =>
      if large then (s, Some(LargeShell))
      else if !WorthNudging(s, session) || !asks then (s, None)
      else Nudge(s, session, session + ":shell:" + Head(command, 120), true, ShellGuess)
    case Grep(pattern, identifier, inProject) =>
      if !WorthNudging(s, session) || !identifier || !inProject then (s, None)
      else Nudge(s, session, session + ":grep:" + pattern, host.Host1?, GrepGuess)
    case Read(path, whole, lines) =>
      if !whole then (s, None)
      else if lines >= WHOLE_FILE_IS_FINE then (s, Some(LargeRead))
      else if !WorthNudging(s, session) then (s, None)
      else
        var used := Count(s.spent, session) + 1;
        var t := s.(spent := s.spent[session := used]);
        if used > BudgetFor(t, session) then Nudge(t, session, session + ":read:" + path, true, OverBudget)
        else if session in s.usesSymbolicTools || session in s.nudgedAboutSmallFiles then (t, None)
        else (Unheeded(t.(nudgedAboutSmallFiles := t.nudgedAboutSmallFiles + {session}), session), Some(SmallFile))
    case OtherTool => (s, None)
  }

  /** Said once for a key. Under the second host a grep is answered, not refused, and is not counted. */
  function Nudge(s: State, session: string, key: string, counted: bool, refusal: Refusal): (State, Option<Refusal>) {
    if key in s.alreadyNudged then (s, None)
    else
      var t := s.(alreadyNudged := s.alreadyNudged + {key});
      (if counted then Unheeded(t, session) else t, Some(refusal))
  }

  // ----- Histories --------------------------------------------------------------------------------

  datatype Event = Event(session: string, call: Call)

  function Run(host: Host, es: seq<Event>): (State, seq<Option<Refusal>>) {
    if es == [] then (FRESH, [])
    else
      var (s, said) := Run(host, es[..|es| - 1]);
      var (t, r) := Decide(host, s, es[|es| - 1].session, es[|es| - 1].call);
      (t, said + [r])
  }

  /** A session that has spent a short read has been told about short files, or has shown it knows. */
  ghost predicate SpentIsKnown(s: State) {
    forall session :: Count(s.spent, session) > 0 ==>
      session in s.nudgedAboutSmallFiles || session in s.usesSymbolicTools
  }

  lemma DecideKeepsSpentKnown(host: Host, s: State, session: string, call: Call)
    requires SpentIsKnown(s)
    ensures SpentIsKnown(Decide(host, s, session, call).0)
  {}

  lemma {:induction false} RunKeepsSpentKnown(host: Host, es: seq<Event>)
    ensures SpentIsKnown(Run(host, es).0)
  {
    if es != [] {
      RunKeepsSpentKnown(host, es[..|es| - 1]);
      DecideKeepsSpentKnown(host, Run(host, es[..|es| - 1]).0, es[|es| - 1].session, es[|es| - 1].call);
    }
  }

  /** After any history, repeating at once a call refused on a guess is let through. */
  lemma RepeatingAGuessPasses(host: Host, es: seq<Event>, session: string, call: Call)
    ensures
      var (t, r) := Decide(host, Run(host, es).0, session, call);
      r.Some? && Guess(r.value) ==> Decide(host, t, session, call).1 == None
  {
    RunKeepsSpentKnown(host, es);
    var s := Run(host, es).0;
    hide Run;
    assert Count(s.spent, session) > 0 ==> session in s.nudgedAboutSmallFiles || session in s.usesSymbolicTools;
  }

  /** A whole print or read of a large source file. */
  predicate Large(call: Call) {
    (call.Shell? && call.large) || (call.Read? && call.wholeSourceFile && call.lines >= WHOLE_FILE_IS_FINE)
  }

  predicate LargeRefusal(r: Option<Refusal>) { r == Some(LargeShell) || r == Some(LargeRead) }

  function WithoutLarge(es: seq<Event>): seq<Event> {
    if es == [] then []
    else
      var earlier, last := WithoutLarge(es[..|es| - 1]), es[|es| - 1];
      if Large(last.call) then earlier else earlier + [last]
  }

  /**
   In any history exactly the large prints and reads are refused for their size, on every try; and
   they leave no trace: the gate stands where it would had they never been asked for.
   */
  lemma {:induction false} LargeReadsNeverPass(host: Host, es: seq<Event>)
    ensures |Run(host, es).1| == |es|
    ensures forall i :: 0 <= i < |es| ==> (Large(es[i].call) <==> LargeRefusal(Run(host, es).1[i]))
    ensures Run(host, es).0 == Run(host, WithoutLarge(es)).0
  {
    if es != [] {
      var before, last := es[..|es| - 1], es[|es| - 1];
      LargeReadsNeverPass(host, before);
      LargeIsRefused(host, Run(host, before).0, last.session, last.call);
      var earlier := WithoutLarge(before);
      assert (earlier + [last])[..|earlier|] == earlier;
      hide Decide;
    }
  }

  lemma LargeIsRefused(host: Host, s: State, session: string, call: Call)
    ensures Large(call) <==> LargeRefusal(Decide(host, s, session, call).1)
    ensures Large(call) ==> Decide(host, s, session, call).0 == s
  {}

  // ----- How often --------------------------------------------------------------------------------

  /** How many of the calls so far were refused on a guess in this session. */
  function Guesses(es: seq<Event>, said: seq<Option<Refusal>>, session: string): nat
    requires |es| == |said|
  {
    if es == [] then 0
    else
      var last, r := es[|es| - 1], said[|said| - 1];
      Guesses(es[..|es| - 1], said[..|said| - 1], session)
      + if last.session == session && r.Some? && Guess(r.value) then 1 else 0
  }

  lemma {:induction false} OneAnswerPerCall(host: Host, es: seq<Event>)
    ensures |Run(host, es).1| == |es|
  {
    if es != [] { OneAnswerPerCall(host, es[..|es| - 1]); }
  }

  predicate NeverSymbolic(es: seq<Event>, session: string) {
    forall e :: e in es && e.session == session ==> !e.call.Symbolic?
  }

  /** What one decision adds to the count kept for a session that has made no symbolic call. */
  lemma DecideCounts(s: State, session: string, call: Call, other: string)
    requires other !in s.usesSymbolicTools && Count(s.unheeded, other) <= GIVE_UP_AFTER
    requires session == other ==> !call.Symbolic?
    ensures
      var (t, r) := Decide(Host1, s, session, call);
      && other !in t.usesSymbolicTools && Count(t.unheeded, other) <= GIVE_UP_AFTER
      && Count(t.unheeded, other)
         == Count(s.unheeded, other) + if session == other && r.Some? && Guess(r.value) then 1 else 0
  {}

  lemma {:induction false} UnheededIsTheGuesses(es: seq<Event>, session: string)
    requires NeverSymbolic(es, session)
    ensures |Run(Host1, es).1| == |es|
    ensures
      var (s, said) := Run(Host1, es);
      && session !in s.usesSymbolicTools && Count(s.unheeded, session) <= GIVE_UP_AFTER
      && Guesses(es, said, session) == Count(s.unheeded, session)
  {
    if es != [] {
      var before, last := es[..|es| - 1], es[|es| - 1];
      assert es == before + [last];
      UnheededIsTheGuesses(before, session);
      var (s, said) := Run(Host1, before);
      DecideCounts(s, last.session, last.call, session);
      OneAnswerPerCall(Host1, es);
      assert Run(Host1, es).1[..|said|] == said;
    }
  }

  /** Under the first host a session that never makes a symbolic call is turned away on a guess three times at most. */
  lemma AtMostThreeGuesses(es: seq<Event>, session: string)
    requires NeverSymbolic(es, session)
    ensures |Run(Host1, es).1| == |es|
    ensures Guesses(es, Run(Host1, es).1, session) <= 3
  {
    UnheededIsTheGuesses(es, session);
  }

  /** What the gate has said for a key, or to a session about short files, it does not unsay. */
  lemma DecideRemembers(host: Host, s: State, session: string, call: Call)
    ensures
      var t := Decide(host, s, session, call).0;
      && s.alreadyNudged <= t.alreadyNudged && s.nudgedAboutSmallFiles <= t.nudgedAboutSmallFiles
      && s.usesSymbolicTools <= t.usesSymbolicTools
  {}

  lemma {:induction false} RunRemembers(host: Host, es: seq<Event>, more: seq<Event>)
    ensures
      var (s, t) := (Run(host, es).0, Run(host, es + more).0);
      && s.alreadyNudged <= t.alreadyNudged && s.nudgedAboutSmallFiles <= t.nudgedAboutSmallFiles
  {
    if more == [] {
      assert es + more == es;
    } else {
      assert (es + more)[..|es + more| - 1] == es + more[..|more| - 1];
      RunRemembers(host, es, more[..|more| - 1]);
      DecideRemembers(host, Run(host, es + more[..|more| - 1]).0, more[|more| - 1].session, more[|more| - 1].call);
    }
  }

  /** A refusal's rule never speaks twice about the same call, however much happens in between. */
  lemma NoGuessIsRepeated(host: Host, es: seq<Event>, e: Event, more: seq<Event>)
    ensures
      var first := Decide(host, Run(host, es).0, e.session, e.call).1;
      first.Some? && Guess(first.value) ==> Decide(host, Run(host, es + [e] + more).0, e.session, e.call).1 != first
  {
    assert (es + [e])[..|es|] == es;
    RunRemembers(host, es + [e], more);
    hide Run;
  }

  predicate ShortRead(call: Call) { call.Read? && call.wholeSourceFile && call.lines < WHOLE_FILE_IS_FINE }

  /** The session's budget of whole files is spent, and neither this file nor three refusals excuse it. */
  predicate OutOfBudget(s: State, session: string, path: string) {
    WorthNudging(s, session) && Count(s.spent, session) >= BudgetFor(s, session)
      && session + ":read:" + path !in s.alreadyNudged
  }

  lemma ShortReadIsRefusedIff(host: Host, s: State, session: string, call: Call)
    requires ShortRead(call) && session in s.nudgedAboutSmallFiles
    ensures Decide(host, s, session, call).1.None? <==> !OutOfBudget(s, session, call.path)
  {}

  /** What the nudge promises a session: from then on every short read of it goes through. */
  ghost predicate PromiseKept(host: Host, es: seq<Event>, more: seq<Event>, session: string) {
    forall k :: 0 <= k < |more| && more[k].session == session && ShortRead(more[k].call) ==>
      Decide(host, Run(host, es + more[..k]).0, session, more[k].call).1.None?
  }

  /** Whatever follows the nudge, its promise is kept exactly when no short read comes out of budget. */
  lemma PromiseKeptIff(host: Host, es: seq<Event>, more: seq<Event>, session: string)
    requires session in Run(host, es).0.nudgedAboutSmallFiles
    ensures PromiseKept(host, es, more, session) <==>
              forall k :: 0 <= k < |more| && more[k].session == session && ShortRead(more[k].call) ==>
                !OutOfBudget(Run(host, es + more[..k]).0, session, more[k].call.path)
  {
    forall k | 0 <= k < |more| && ShortRead(more[k].call)
      ensures Decide(host, Run(host, es + more[..k]).0, session, more[k].call).1.None? <==>
                !OutOfBudget(Run(host, es + more[..k]).0, session, more[k].call.path)
    {
      RunRemembers(host, es, more[..k]);
      ShortReadIsRefusedIff(host, Run(host, es + more[..k]).0, session, more[k].call);
    }
    hide Run, Decide, OutOfBudget;
  }

  lemma RunSnoc(es: seq<Event>, e: Event)
    ensures var (s, said) := Run(Host1, es);
      Run(Host1, es + [e]) == (Decide(Host1, s, e.session, e.call).0, said + [Decide(Host1, s, e.session, e.call).1])
  {}

  function Again(e: Event, n: nat): seq<Event> { if n == 0 then [] else Again(e, n - 1) + [e] }

  /** A session told once about short files, with n of them read since it began. */
  function Told(session: string, n: nat): State { State({}, {session}, {}, map[session := n], map[session := 1]) }

  lemma NextShortRead(session: string, path: string, lines: nat, n: nat)
    requires lines < WHOLE_FILE_IS_FINE && 1 <= n <= WHOLE_FILE_BUDGET_UNPROVEN
    ensures Decide(Host1, if n == 1 then FRESH else Told(session, n - 1), session, Read(path, true, lines)).0 ==
            Told(session, n)
  {}

  lemma {:induction false} NudgedOnce(session: string, path: string, lines: nat, n: nat)
    requires lines < WHOLE_FILE_IS_FINE && 1 <= n <= WHOLE_FILE_BUDGET_UNPROVEN
    ensures Run(Host1, Again(Event(session, Read(path, true, lines)), n)).0 == Told(session, n)
  {
    hide Decide, Told;
    var e := Event(session, Read(path, true, lines));
    RunSnoc(Again(e, n - 1), e);
    NextShortRead(session, path, lines, n);
    if n > 1 { NudgedOnce(session, path, lines, n - 1); }
  }

  /**
   The nudge says that the same read and every short file after it will go through. The third short
   read after it is refused.
   */
  lemma AShortFileAfterTheNudgeIsRefused(session: string, first: string, other: string, lines: nat)
    requires lines < WHOLE_FILE_IS_FINE
    ensures
      var es := Again(Event(session, Read(first, true, lines)), 3);
      && Decide(Host1, Run(Host1, []).0, session, Read(first, true, lines)).1 == Some(SmallFile)
      && Decide(Host1, Run(Host1, es).0, session, Read(other, true, lines)).1 == Some(OverBudget)
  {
    NudgedOnce(session, first, lines, 3);
  }

  // ----- The module-level state -------------------------------------------------------------------

  class SessionMemory {
    var alreadyNudged: set<string>
    var nudgedAboutSmallFiles: set<string>
    var usesSymbolicTools: set<string>
    var spent: map<string, nat>
    var unheeded: map<string, nat>

    ghost function View(): State reads this {
      State(alreadyNudged, nudgedAboutSmallFiles, usesSymbolicTools, spent, unheeded)
    }

    constructor ()
      ensures View() == FRESH
    {
      alreadyNudged, nudgedAboutSmallFiles, usesSymbolicTools, spent, unheeded := {}, {}, {}, map[], map[];
    }

    method Worth(session: string) returns (worth: bool)
      ensures worth == WorthNudging(View(), session)
    {
      worth := session in usesSymbolicTools || Count(unheeded, session) < GIVE_UP_AFTER;
    }

    method SayOnce(session: string, key: string, counted: bool, refusal: Refusal) returns (r: Option<Refusal>)
      modifies this
      ensures (View(), r) == Nudge(old(View()), session, key, counted, refusal)
    {
      if key in alreadyNudged { return None; }
      alreadyNudged := alreadyNudged + {key};
      if counted { unheeded := unheeded[session := Count(unheeded, session) + 1]; }
      r := Some(refusal);
    }

    method OnShortRead(session: string, path: string) returns (r: Option<Refusal>)
      modifies this
      ensures (View(), r) == Decide(Host1, old(View()), session, Read(path, true, 0))
    {
      var worth := Worth(session);
      if !worth { return None; }
      var used := Count(spent, session) + 1;
      spent := spent[session := used];
      var budget := if session in usesSymbolicTools then WHOLE_FILE_BUDGET else WHOLE_FILE_BUDGET_UNPROVEN;
      if used > budget {
        r := SayOnce(session, session + ":read:" + path, true, OverBudget);
        return;
      }
      if session in usesSymbolicTools || session in nudgedAboutSmallFiles { return None; }
      nudgedAboutSmallFiles := nudgedAboutSmallFiles + {session};
      unheeded := unheeded[session := Count(unheeded, session) + 1];
      r := Some(SmallFile);
    }

    method OnCall(host: Host, session: string, call: Call) returns (r: Option<Refusal>)
      modifies this
      ensures (View(), r) == Decide(host, old(View()), session, call)
    {
      match call
      case Symbolic(moved) =>
        usesSymbolicTools := usesSymbolicTools + {session};
        unheeded := unheeded[session := 0];
        r := if moved then Some(MovedTool) else None;
      case Shell(command, large, asks) =>
        if large { return Some(LargeShell); }
        var worth := Worth(session);
        if !worth || !asks { return None; }
        r := SayOnce(session, session + ":shell:" + Head(command, 120), true, ShellGuess);
      case Grep(pattern, identifier, inProject) =>
        var worth := Worth(session);
        if !worth || !identifier || !inProject { return None; }
        r := SayOnce(session, session + ":grep:" + pattern, host.Host1?, GrepGuess);
      case Read(path, whole, lines) =>
        if !whole { return None; }
        if lines >= WHOLE_FILE_IS_FINE { return Some(LargeRead); }
        r := OnShortRead(session, path);
      case OtherTool => r := None;
    }
  }

  // ----- Quotes in a shell command ----------------------------------------------------------------

  const MASK: char := '\U{0001}'

  predicate Separator(c: char) { c == '|' || c == ';' || c == '&' }
  predicate QuoteMark(c: char) { c == '\'' || c == '"' }

  /** The quote left open by a text, if any. */
  function OpenQuote(text: string): Option<char> {
    if text == [] then None
    else
      var open, c := OpenQuote(text[..|text| - 1]), text[|text| - 1];
      if open.Some? then if c == open.value then None else open
      else if QuoteMark(c) then Some(c) else None
  }

  function MaskedChar(text: string, i: nat): char
    requires i < |text|
  {
    if OpenQuote(text[..i]).Some? && Separator(text[i]) then MASK else text[i]
  }

  /** Exactly the separators inside quotes are replaced. */
  ghost predicate MaskOf(command: string, out: string) {
    |out| == |command| && forall i :: 0 <= i < |command| ==> out[i] == MaskedChar(command, i)
  }

  method Masked(command: string) returns (out: string)
    ensures MaskOf(command, out)
  {
    var quote: Option<char> := None;
    out := "";
    for i := 0 to |command|
      invariant |out| == i && quote == OpenQuote(command[..i])
      invariant forall j :: 0 <= j < i ==> out[j] == MaskedChar(command, j)
    {
      var c := command[i];
      assert command[..i + 1][..i] == command[..i];
      if quote.Some? {
        out := out + [if Separator(c) then MASK else c];
        if c == quote.value { quote := None; }
      } else {
        out := out + [c];
        if QuoteMark(c) { quote := Some(c); }
      }
    }
    assert command[..|command|] == command;
  }

  lemma {:induction false} MaskingKeepsQuotes(command: string, out: string, i: nat)
    requires MaskOf(command, out) && i <= |command|
    ensures OpenQuote(out[..i]) == OpenQuote(command[..i])
  {
    if i > 0 {
      MaskingKeepsQuotes(command, out, i - 1);
      assert out[..i][..i - 1] == out[..i - 1] && command[..i][..i - 1] == command[..i - 1];
      assert OpenQuote(command[..i - 1]).Some? ==> QuoteMark(OpenQuote(command[..i - 1]).value) by {
        OpenQuotesAreQuotes(command[..i - 1]);
      }
    }
  }

  lemma {:induction false} OpenQuotesAreQuotes(text: string)
    ensures OpenQuote(text).Some? ==> QuoteMark(OpenQuote(text).value)
  {
    if text != [] { OpenQuotesAreQuotes(text[..|text| - 1]); }
  }

  /** The gate masks a command before taking it apart, and masks the parts' source again: nothing changes. */
  lemma MaskingTwiceIsMaskingOnce(command: string, once: string, twice: string)
    requires MaskOf(command, once) && MaskOf(once, twice)
    ensures twice == once
  {
    forall i | 0 <= i < |command| ensures twice[i] == once[i] {
      MaskingKeepsQuotes(command, once, i);
      assert once[i] == MaskedChar(command, i) && twice[i] == MaskedChar(once, i);
    }
  }
}
