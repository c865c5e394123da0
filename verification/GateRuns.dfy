/** When the gate refuses a call, told from the calls made so far and what was said to them. */
module GateRuns {
  import opened Common
  import opened Gate

  // ----- What a history shows ---------------------------------------------------------------------

  /** The session has made a symbolic call. */
  ghost predicate Proven(es: seq<Event>, session: string) {
    exists j :: 0 <= j < |es| && es[j].session == session && es[j].call.Symbolic?
  }

  /** Refusals that count as ignored; under the second host a grep is answered, so that one does not. */
  predicate Counted(host: Host, r: Option<Refusal>) {
    r == Some(ShellGuess) || r == Some(SmallFile) || r == Some(OverBudget) || (r == Some(GrepGuess) && host.Host1?)
  }

  /** The counted refusals of a session since its last symbolic call. */
  function Ignored(host: Host, es: seq<Event>, said: seq<Option<Refusal>>, session: string): nat
    requires |es| == |said|
  {
    if es == [] then 0
    else
      var n, last := |es| - 1, es[|es| - 1];
      if last.session != session then Ignored(host, es[..n], said[..n], session)
      else if last.call.Symbolic? then 0
      else Ignored(host, es[..n], said[..n], session) + if Counted(host, said[n]) then 1 else 0
  }

  ghost predicate Worth(host: Host, es: seq<Event>, said: seq<Option<Refusal>>, session: string)
    requires |es| == |said|
  {
    Proven(es, session) || Ignored(host, es, said, session) < 3
  }

  /** The text under which a refusal is remembered: the session, the rule and what was asked for. */
  function KeyOf(e: Event): string {
    match e.call
    case Shell(command, _, _) => e.session + ":shell:" + if |command| <= 120 then command else command[..120]
    case Grep(pattern, _, _) => e.session + ":grep:" + pattern
    case Read(path, _, _) => e.session + ":read:" + path
    case _ => ""
  }

  predicate Keyed(r: Option<Refusal>) { r == Some(ShellGuess) || r == Some(GrepGuess) || r == Some(OverBudget) }

  ghost predicate SaidFor(es: seq<Event>, said: seq<Option<Refusal>>, key: string)
    requires |es| == |said|
  {
    exists j :: 0 <= j < |es| && Keyed(said[j]) && KeyOf(es[j]) == key
  }

  ghost predicate ToldOfShortFiles(es: seq<Event>, said: seq<Option<Refusal>>, session: string)
    requires |es| == |said|
  {
    exists j :: 0 <= j < |es| && es[j].session == session && said[j] == Some(SmallFile)
  }

  predicate ShortFile(call: Call) { call.Read? && call.wholeSourceFile && call.lines < 300 }

  /** The short files a session has asked for whole while it was still worth nudging. */
  ghost function Spent(host: Host, es: seq<Event>, said: seq<Option<Refusal>>, session: string): nat
    requires |es| == |said|
  {
    if es == [] then 0
    else
      var n, last := |es| - 1, es[|es| - 1];
      Spent(host, es[..n], said[..n], session)
      + if last.session == session && ShortFile(last.call) && Worth(host, es[..n], said[..n], session) then 1 else 0
  }

  // ----- What the gate remembers is that ----------------------------------------------------------

  ghost predicate Remembers(host: Host, s: State, es: seq<Event>, said: seq<Option<Refusal>>) {
    && |es| == |said|
    && (forall session :: session in s.usesSymbolicTools <==> Proven(es, session))
    && (forall session :: Count(s.unheeded, session) == Ignored(host, es, said, session))
    && (forall key :: key in s.alreadyNudged <==> SaidFor(es, said, key))
    && (forall session :: session in s.nudgedAboutSmallFiles <==> ToldOfShortFiles(es, said, session))
    && (forall session :: Count(s.spent, session) == Spent(host, es, said, session))
  }

  /** What is said to a call after a history: the whole of the gate's policy. */
  ghost predicate Follows(host: Host, es: seq<Event>, said: seq<Option<Refusal>>, e: Event, r: Option<Refusal>)
    requires |es| == |said|
  {
    var worth := Worth(host, es, said, e.session);
    var spent, budget := Spent(host, es, said, e.session), if Proven(es, e.session) then 5 else 3;
    && (r == Some(MovedTool) <==> e.call.Symbolic? && e.call.moved)
    && (r == Some(LargeShell) <==> e.call.Shell? && e.call.large)
    && (r == Some(LargeRead) <==> e.call.Read? && e.call.wholeSourceFile && e.call.lines >= 300)
    && (r == Some(ShellGuess) <==>
          e.call.Shell? && !e.call.large && e.call.asksAboutSymbols && worth && !SaidFor(es, said, KeyOf(e)))
    && (r == Some(GrepGuess) <==>
          e.call.Grep? && e.call.identifier && e.call.inProject && worth && !SaidFor(es, said, KeyOf(e)))
    && (r == Some(SmallFile) <==>
          ShortFile(e.call) && worth && !Proven(es, e.session) && !ToldOfShortFiles(es, said, e.session))
    && (r == Some(OverBudget) <==> ShortFile(e.call) && worth && spent >= budget && !SaidFor(es, said, KeyOf(e)))
  }

  lemma DecideFollows(host: Host, s: State, es: seq<Event>, said: seq<Option<Refusal>>, e: Event)
    requires Remembers(host, s, es, said) && SpentIsKnown(s)
    ensures Follows(host, es, said, e, Decide(host, s, e.session, e.call).1)
  {
    hide Proven, Ignored, SaidFor, ToldOfShortFiles, Spent;
  }

  // Each of the five memories, after one more call.

  lemma ProvenSnoc(es: seq<Event>, e: Event, session: string)
    ensures Proven(es + [e], session) <==> Proven(es, session) || (e.session == session && e.call.Symbolic?)
  {
    var more := es + [e];
    if Proven(es, session) {
      var j :| 0 <= j < |es| && es[j].session == session && es[j].call.Symbolic?;
      assert more[j] == es[j];
    }
    assert more[|es|] == e;
  }

  lemma SaidForSnoc(es: seq<Event>, said: seq<Option<Refusal>>, e: Event, r: Option<Refusal>, key: string)
    requires |es| == |said|
    ensures SaidFor(es + [e], said + [r], key) <==> SaidFor(es, said, key) || (Keyed(r) && KeyOf(e) == key)
  {
    var more, answers := es + [e], said + [r];
    if SaidFor(es, said, key) {
      var j :| 0 <= j < |es| && Keyed(said[j]) && KeyOf(es[j]) == key;
      assert more[j] == es[j] && answers[j] == said[j];
    }
    assert more[|es|] == e && answers[|es|] == r;
  }

  lemma ToldSnoc(es: seq<Event>, said: seq<Option<Refusal>>, e: Event, r: Option<Refusal>, session: string)
    requires |es| == |said|
    ensures ToldOfShortFiles(es + [e], said + [r], session) <==>
              ToldOfShortFiles(es, said, session) || (e.session == session && r == Some(SmallFile))
  {
    var more, answers := es + [e], said + [r];
    if ToldOfShortFiles(es, said, session) {
      var j :| 0 <= j < |es| && es[j].session == session && said[j] == Some(SmallFile);
      assert more[j] == es[j] && answers[j] == said[j];
    }
    assert more[|es|] == e && answers[|es|] == r;
  }

  lemma CountsSnoc(host: Host, es: seq<Event>, said: seq<Option<Refusal>>, e: Event, r: Option<Refusal>,
                   session: string)
    requires |es| == |said|
    ensures Ignored(host, es + [e], said + [r], session) ==
      if e.session != session then Ignored(host, es, said, session)
      else if e.call.Symbolic? then 0
      else Ignored(host, es, said, session) + if Counted(host, r) then 1 else 0
    ensures Spent(host, es + [e], said + [r], session) ==
      Spent(host, es, said, session)
      + if e.session == session && ShortFile(e.call) && Worth(host, es, said, session) then 1 else 0
  {
    assert (es + [e])[..|es|] == es && (said + [r])[..|said|] == said;
  }

  lemma DecideRemembersAll(host: Host, s: State, es: seq<Event>, said: seq<Option<Refusal>>, e: Event)
    requires Remembers(host, s, es, said)
    ensures var (t, r) := Decide(host, s, e.session, e.call); Remembers(host, t, es + [e], said + [r])
  {
    hide Proven, Ignored, SaidFor, ToldOfShortFiles, Spent, Decide;
    var (t, r) := Decide(host, s, e.session, e.call);
    forall session
      ensures session in t.usesSymbolicTools <==> Proven(es + [e], session)
      ensures Count(t.unheeded, session) == Ignored(host, es + [e], said + [r], session)
      ensures session in t.nudgedAboutSmallFiles <==> ToldOfShortFiles(es + [e], said + [r], session)
      ensures Count(t.spent, session) == Spent(host, es + [e], said + [r], session)
    {
      ProvenSnoc(es, e, session);
      ToldSnoc(es, said, e, r, session);
      CountsSnoc(host, es, said, e, r, session);
      SessionMoves(host, s, es, said, e, session);
    }
    forall key ensures key in t.alreadyNudged <==> SaidFor(es + [e], said + [r], key) {
      SaidForSnoc(es, said, e, r, key);
      KeysMove(host, s, e, key);
    }
  }

  lemma SessionMoves(host: Host, s: State, es: seq<Event>, said: seq<Option<Refusal>>, e: Event, session: string)
    requires Remembers(host, s, es, said)
    ensures
      var (t, r) := Decide(host, s, e.session, e.call); var mine := e.session == session;
      && (session in t.usesSymbolicTools <==> session in s.usesSymbolicTools || (mine && e.call.Symbolic?))
      && (session in t.nudgedAboutSmallFiles <==> session in s.nudgedAboutSmallFiles || (mine && r == Some(SmallFile)))
      && Count(t.unheeded, session) ==
           (if mine && e.call.Symbolic? then 0
            else Count(s.unheeded, session) + if mine && Counted(host, r) then 1 else 0)
      && Count(t.spent, session) ==
           Count(s.spent, session) + if mine && ShortFile(e.call) && Worth(host, es, said, session) then 1 else 0
  {
    hide Proven, Ignored, SaidFor, ToldOfShortFiles, Spent;
  }

  lemma KeysMove(host: Host, s: State, e: Event, key: string)
    ensures
      var (t, r) := Decide(host, s, e.session, e.call);
      key in t.alreadyNudged <==> key in s.alreadyNudged || (Keyed(r) && KeyOf(e) == key)
  {}

  lemma {:induction false} RunRemembersAll(host: Host, es: seq<Event>)
    ensures Remembers(host, Run(host, es).0, es, Run(host, es).1)
  {
    hide Remembers, Decide;
    if es == [] {
      NothingRemembered(host);
    } else {
      var before, e := es[..|es| - 1], es[|es| - 1];
      assert es == before + [e];
      RunRemembersAll(host, before);
      DecideRemembersAll(host, Run(host, before).0, before, Run(host, before).1, e);
    }
  }

  lemma NothingRemembered(host: Host)
    ensures Remembers(host, FRESH, [], [])
  {}

  /**
   In any history, exactly what is said to each call: a shell search or a grep that asks about a
   symbol is refused when its key was not before and its session is proven or has ignored fewer than
   three refusals since its last symbolic call; a short file when an unproven session was not told of
   them, or when the session's budget is spent; and the rules about size and moved tools always hold.
   */
  lemma {:induction false} SaidExactlyWhen(host: Host, es: seq<Event>, i: nat)
    requires i < |es|
    ensures |Run(host, es).1| == |es|
    ensures Follows(host, es[..i], Run(host, es).1[..i], es[i], Run(host, es).1[i])
  {
    hide Follows, Decide, Remembers;
    OneAnswerPerCall(host, es);
    var before := es[..|es| - 1];
    OneAnswerPerCall(host, before);
    RunRemembersAll(host, before);
    if i == |before| {
      RunKeepsSpentKnown(host, before);
      DecideFollows(host, Run(host, before).0, before, Run(host, before).1, es[i]);
      assert Run(host, es).1[..i] == Run(host, before).1;
    } else {
      SaidExactlyWhen(host, before, i);
      assert es[..i] == before[..i] && Run(host, es).1[..i] == Run(host, before).1[..i];
    }
  }

  /** For session names without a colon, two calls share a key only if they ask for the same. */
  lemma KeysTellCallsApart(a: Event, b: Event)
    requires a.call.Shell? || a.call.Grep? || a.call.Read?
    requires b.call.Shell? || b.call.Grep? || b.call.Read?
    requires ':' !in a.session && ':' !in b.session && KeyOf(a) == KeyOf(b)
    ensures a.session == b.session
    ensures match a.call
      case Shell(command, _, _) => b.call.Shell? && Head(command, 120) == Head(b.call.command, 120)
      case Grep(pattern, _, _) => b.call.Grep? && pattern == b.call.pattern
      case Read(path, _, _) => b.call.Read? && path == b.call.path
      case _ => true
  {
    var x, y := Tag(a.call) + Text(a.call), Tag(b.call) + Text(b.call);
    assert KeyOf(a) == a.session + x && KeyOf(b) == b.session + y;
    hide KeyOf;
    BeforeTheColon(a.session, x, b.session, y);
    SameRest(x, Tag(a.call), Text(a.call), Tag(b.call), Text(b.call));
  }

  lemma BeforeTheColon(s: string, x: string, t: string, y: string)
    requires ':' !in s && ':' !in t && x != [] && y != [] && x[0] == ':' == y[0] && s + x == t + y
    ensures s == t && x == y
  {
    var k := s + x;
    assert k[|s|] == ':' && k[|t|] == ':';
    assert forall i :: 0 <= i < |s| ==> k[i] == s[i] && s[i] != ':';
    assert forall i :: 0 <= i < |t| ==> k[i] == t[i] && t[i] != ':';
    assert s == k[..|s|] && t == k[..|t|] && x == k[|s|..] && y == k[|t|..];
  }

  function Tag(call: Call): string {
    match call
    case Shell(_, _, _) => ":shell:"
    case Grep(_, _, _) => ":grep:"
    case _ => ":read:"
  }

  function Text(call: Call): string {
    match call
    case Shell(command, _, _) => Head(command, 120)
    case Grep(pattern, _, _) => pattern
    case Read(path, _, _) => path
    case _ => ""
  }

  lemma SameRest(rest: string, tag: string, text: string, other: string, more: string)
    requires tag in {":shell:", ":grep:", ":read:"} && other in {":shell:", ":grep:", ":read:"}
    requires rest == tag + text && rest == other + more
    ensures tag == other && text == more
  {
    assert rest[1] == tag[1] && rest[1] == other[1];
    assert text == rest[|tag|..] && more == rest[|other|..];
  }
}
