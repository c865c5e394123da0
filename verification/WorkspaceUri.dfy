/** Containment of one URI under another, decided on normalized path segments. */
module WorkspaceUri {
  import opened Common

  // ----- Splitting a decoded path -----------------------------------------------------------------

  /** `split("/")`: the empty string is one empty segment. */
  function Split(s: string): (r: seq<string>)
    ensures r != []
    ensures forall i :: 0 <= i < |r| ==> '/' !in r[i]
  {
    if s == "" then [""]
    else
      var rest := Split(s[1..]);
      if s[0] == '/' then [""] + rest else [[s[0]] + rest[0]] + rest[1..]
  }

  function Join(segments: seq<string>): string {
    if segments == [] then "" else "/" + segments[0] + Join(segments[1..])
  }

  predicate Names(segment: string) { segment != "" && segment != "." && segment != ".." }

  /** Segments that normalization leaves alone. */
  predicate Clean(segments: seq<string>) {
    forall i :: 0 <= i < |segments| ==> Names(segments[i]) && '/' !in segments[i]
  }

  // ----- The meaning of a path --------------------------------------------------------------------

  /** How far below its starting point a walk along the segments ends. */
  function Level(segments: seq<string>): int {
    if segments == [] then 0
    else Level(segments[..|segments| - 1])
         + (var last := segments[|segments| - 1]; if Names(last) then 1 else if last == ".." then -1 else 0)
  }

  /** The walk never climbs above where it started. */
  ghost predicate StaysBelow(segments: seq<string>) {
    forall k :: 0 <= k <= |segments| ==> Level(segments[..k]) >= 0
  }

  /** Segment `i` names a directory the walk never leaves again. */
  ghost predicate Survives(segments: seq<string>, i: nat) {
    i < |segments| && Names(segments[i]) && forall k :: i < k <= |segments| ==>
      Level(segments[..k]) >= Level(segments[..i + 1])
  }

  /** The segments that survive, in order. */
  ghost function Survivors(segments: seq<string>, upTo: nat): seq<string>
    requires upTo <= |segments|
  {
    if upTo == 0 then []
    else Survivors(segments, upTo - 1) + if Survives(segments, upTo - 1) then [segments[upTo - 1]] else []
  }

  // ----- The push/pop normalizer ------------------------------------------------------------------

  function Push(stack: seq<string>, segment: string): Option<seq<string>> {
    if segment == "" || segment == "." then Some(stack)
    else if segment == ".." then (if stack == [] then None else Some(stack[..|stack| - 1]))
    else Some(stack + [segment])
  }

  function Normalize(segments: seq<string>): Option<seq<string>> {
    if segments == [] then Some([])
    else
      match Normalize(segments[..|segments| - 1])
      case None => None
      case Some(stack) => Push(stack, segments[|segments| - 1])
  }

  predicate Forbidden(decoded: string) { '\0' in decoded || '\\' in decoded }

  /** `None` where the path cannot be decoded, holds a NUL or a backslash, or climbs above its root. */
  method NormalizedUriSegments(decoded: Option<string>) returns (r: Option<seq<string>>)
    ensures r == Segments(decoded)
  {
    if decoded == None || Forbidden(decoded.value) { return None; }
    var parts := Split(decoded.value);
    var segments: seq<string> := [];
    for i := 0 to |parts|
      invariant Normalize(parts[..i]) == Some(segments)
    {
      var segment := parts[i];
      assert parts[..i + 1][..i] == parts[..i];
      if segment == ".." && |segments| == 0 {
        ClimbingFails(parts, i + 1);
        return None;
      }
      if |segment| == 0 || segment == "." { continue; }
      if segment == ".." { segments := segments[..|segments| - 1]; } else { segments := segments + [segment]; }
    }
    assert parts[..|parts|] == parts;
    return Some(segments);
  }

  function Segments(decoded: Option<string>): Option<seq<string>> {
    if decoded == None || Forbidden(decoded.value) then None else Normalize(Split(decoded.value))
  }

  lemma {:induction false} ClimbingFails(segments: seq<string>, k: nat)
    requires k <= |segments| && Normalize(segments[..k]) == None
    ensures Normalize(segments) == None
  {
    if k < |segments| {
      assert segments[..|segments| - 1][..k] == segments[..k];
      ClimbingFails(segments[..|segments| - 1], k);
    } else {
      assert segments[..k] == segments;
    }
  }

  // ----- The normalizer computes the walk ---------------------------------------------------------

  /** The path is refused exactly when the walk climbs above its start; otherwise the stack is as deep as the walk. */
  lemma {:induction false} RefusedIffClimbs(segments: seq<string>)
    ensures Normalize(segments).Some? <==> StaysBelow(segments)
    ensures Normalize(segments).Some? ==> |Normalize(segments).value| == Level(segments)
  {
    if segments != [] {
      var front := segments[..|segments| - 1];
      RefusedIffClimbs(front);
      assert segments[..|segments|] == segments;
      forall k | 0 <= k <= |front| ensures front[..k] == segments[..k] {}
      if StaysBelow(segments) {
        forall k | 0 <= k <= |front| ensures Level(front[..k]) >= 0 { assert front[..k] == segments[..k]; }
      }
      if StaysBelow(front) && Level(segments) >= 0 {
        forall k | 0 <= k <= |segments| ensures Level(segments[..k]) >= 0 {
          if k <= |front| { assert front[..k] == segments[..k]; }
        }
      }
    }
  }

  /** The survivors among the first `upTo` segments that lie at most `depth` below the start. */
  ghost function Shallow(segments: seq<string>, depth: int, upTo: nat): seq<string>
    requires upTo <= |segments|
  {
    if upTo == 0 then []
    else Shallow(segments, depth, upTo - 1)
         + if Survives(segments, upTo - 1) && Level(segments[..upTo]) <= depth then [segments[upTo - 1]] else []
  }

  /** A later segment that ends no shallower than `depth` undoes nothing at most that deep. */
  lemma {:induction false} ShallowIsUndisturbed(segments: seq<string>, depth: int, upTo: nat)
    requires upTo < |segments| && depth <= Level(segments)
    ensures Shallow(segments, depth, upTo) == Shallow(segments[..|segments| - 1], depth, upTo)
  {
    if upTo > 0 {
      ShallowIsUndisturbed(segments, depth, upTo - 1);
      var front, i := segments[..|segments| - 1], upTo - 1;
      assert segments[..|segments|] == segments;
      assert front[..upTo] == segments[..upTo];
      if Level(segments[..upTo]) <= depth {
        if Survives(front, i) {
          forall k | i < k <= |segments| ensures Level(segments[..k]) >= Level(segments[..i + 1]) {
            if k <= |front| { assert front[..k] == segments[..k]; }
          }
        }
        if Survives(segments, i) {
          forall k | i < k <= |front| ensures Level(front[..k]) >= Level(front[..i + 1]) {
            assert front[..k] == segments[..k];
          }
        }
      }
    }
  }

  /** Everything that survives to the end lies no deeper than the end. */
  lemma {:induction false} SurvivorsAreShallow(segments: seq<string>, upTo: nat)
    requires upTo <= |segments|
    ensures Shallow(segments, Level(segments), upTo) == Survivors(segments, upTo)
  {
    if upTo > 0 {
      SurvivorsAreShallow(segments, upTo - 1);
      assert segments[..|segments|] == segments;
    }
  }

  lemma {:induction false} StackHoldsTheShallow(segments: seq<string>, depth: nat)
    requires Normalize(segments).Some? && depth <= Level(segments)
    ensures |Normalize(segments).value| == Level(segments)
    ensures Shallow(segments, depth, |segments|) == Normalize(segments).value[..depth]
  {
    RefusedIffClimbs(segments);
    if segments != [] {
      var front, last := segments[..|segments| - 1], segments[|segments| - 1];
      RefusedIffClimbs(front);
      assert segments[..|segments|] == segments;
      ShallowIsUndisturbed(segments, depth, |front|);
      if Names(last) && depth == Level(segments) {
        StackHoldsTheShallow(front, Level(front));
        SurvivorsAreShallow(front, |front|);
        TopSurvives(segments);
        ShallowBelowTop(segments, |front|);
      } else {
        StackHoldsTheShallow(front, depth);
        assert !(Survives(segments, |front|) && Level(segments[..|segments|]) <= depth);
      }
    }
  }

  lemma TopSurvives(segments: seq<string>)
    requires segments != [] && Names(segments[|segments| - 1])
    ensures Survives(segments, |segments| - 1)
  {}

  /** Before a final name, being at most one deeper changes nothing. */
  lemma {:induction false} ShallowBelowTop(segments: seq<string>, upTo: nat)
    requires upTo < |segments| && Names(segments[|segments| - 1])
    ensures var front := segments[..|segments| - 1];
      Shallow(segments, Level(segments), upTo) == Shallow(front, Level(front), upTo)
  {
    var front := segments[..|segments| - 1];
    ShallowIsUndisturbed(segments, Level(segments), upTo);
    SurvivorsAreShallow(front, upTo);
    DeeperChangesNothing(front, upTo);
  }

  lemma {:induction false} DeeperChangesNothing(segments: seq<string>, upTo: nat)
    requires upTo <= |segments|
    ensures Shallow(segments, Level(segments) + 1, upTo) == Survivors(segments, upTo)
  {
    if upTo > 0 {
      DeeperChangesNothing(segments, upTo - 1);
      assert segments[..|segments|] == segments;
    }
  }

  /**
   The push/pop loop computes the path walk: it refuses exactly the paths that climb above their
   start, and returns exactly the named segments the walk never leaves again, in order.
   */
  lemma NormalizeIsTheWalk(segments: seq<string>)
    ensures Normalize(segments) == if StaysBelow(segments) then Some(Survivors(segments, |segments|)) else None
  {
    hide Survives, Level, Shallow, Survivors, StaysBelow, Normalize;
    RefusedIffClimbs(segments);
    if Normalize(segments).Some? {
      var stack := Normalize(segments).value;
      StackHoldsTheShallow(segments, |stack|);
      SurvivorsAreShallow(segments, |segments|);
      assert stack[..|stack|] == stack;
    }
  }

  // ----- Normal forms -----------------------------------------------------------------------------

  lemma {:induction false} NormalizedIsClean(segments: seq<string>)
    requires Normalize(segments).Some? && forall i :: 0 <= i < |segments| ==> '/' !in segments[i]
    ensures Clean(Normalize(segments).value)
  {
    if segments != [] { NormalizedIsClean(segments[..|segments| - 1]); }
  }

  lemma FrontAndLast<T>(s: seq<T>)
    requires s != []
    ensures s == s[..|s| - 1] + [s[|s| - 1]]
  {}

  lemma {:induction false} CleanIsFixed(segments: seq<string>)
    requires Clean(segments)
    ensures Normalize(segments) == Some(segments)
  {
    if segments != [] {
      var front, last := segments[..|segments| - 1], segments[|segments| - 1];
      assert Clean(front) && Names(last);
      CleanIsFixed(front);
      assert Push(front, last) == Some(front + [last]);
      FrontAndLast(segments);
    }
  }

  lemma {:induction false} SplitOneSegment(name: string, rest: string)
    requires '/' !in name && (rest == "" || rest[0] == '/')
    ensures Split(name + rest) == [name] + if rest == "" then [] else Split(rest[1..])
  {
    if name == "" {
      assert name + rest == rest;
    } else {
      assert (name + rest)[1..] == name[1..] + rest;
      SplitOneSegment(name[1..], rest);
      assert name == [name[0]] + name[1..];
    }
  }

  lemma {:induction false} SplitJoin(segments: seq<string>)
    requires Clean(segments)
    ensures Split(Join(segments)) == [""] + segments
  {
    if segments != [] {
      var tail := segments[0] + Join(segments[1..]);
      assert Join(segments) == "/" + tail && ("/" + tail)[1..] == tail;
      assert segments[1..] != [] ==> Join(segments[1..])[0] == '/';
      SplitOneSegment(segments[0], Join(segments[1..]));
      SplitJoin(segments[1..]);
      if segments[1..] != [] {
        var rest := Join(segments[1..]);
        assert Split(rest) == [""] + Split(rest[1..]);
        assert ([""] + Split(rest[1..]))[1..] == Split(rest[1..]);
        assert ([""] + segments[1..])[1..] == segments[1..];
      }
      assert segments == [segments[0]] + segments[1..];
    }
  }

  ghost predicate Over(segments: seq<string>, allowed: string) {
    forall i, j :: 0 <= i < |segments| && 0 <= j < |segments[i]| ==> segments[i][j] in allowed
  }

  lemma {:induction false} SplitAddsNothing(s: string, allowed: string)
    requires forall i :: 0 <= i < |s| ==> s[i] in allowed
    ensures Over(Split(s), allowed)
  {
    if s != "" { SplitAddsNothing(s[1..], allowed); }
  }

  lemma {:induction false} NormalizeAddsNothing(segments: seq<string>, allowed: string)
    requires Over(segments, allowed) && Normalize(segments).Some?
    ensures Over(Normalize(segments).value, allowed)
  {
    if segments != [] { NormalizeAddsNothing(segments[..|segments| - 1], allowed); }
  }

  lemma {:induction false} JoinAddsSlashes(segments: seq<string>, allowed: string)
    requires Over(segments, allowed)
    ensures forall i :: 0 <= i < |Join(segments)| ==> Join(segments)[i] in allowed || Join(segments)[i] == '/'
  {
    if segments != [] {
      assert segments[0] == segments[..][0];
      forall i, j | 0 <= i < |segments[1..]| && 0 <= j < |segments[1..][i]| ensures segments[1..][i][j] in allowed {
        assert segments[1..][i] == segments[i + 1];
      }
      JoinAddsSlashes(segments[1..], allowed);
    }
  }

  /** A normalized path has no empty or dot segment, and normalizing it again, written out, changes nothing. */
  lemma NormalizedIsNormal(decoded: Option<string>)
    requires Segments(decoded).Some?
    ensures Clean(Segments(decoded).value)
    ensures Segments(Some(Join(Segments(decoded).value))) == Segments(decoded)
  {
    var out := Segments(decoded).value;
    NormalizedIsClean(Split(decoded.value));
    SplitJoin(out);
    CleanIsFixed(out);
    LeadingNoise(out);
    SplitAddsNothing(decoded.value, decoded.value);
    NormalizeAddsNothing(Split(decoded.value), decoded.value);
    JoinAddsSlashes(out, decoded.value);
    assert !Forbidden(Join(out));
  }

  lemma {:induction false} LeadingNoise(segments: seq<string>)
    ensures Normalize([""] + segments) == Normalize(segments)
  {
    var s := [""] + segments;
    if segments == [] {
      assert s[..0] == [];
    } else {
      LeadingNoise(segments[..|segments| - 1]);
      assert s[..|s| - 1] == [""] + segments[..|segments| - 1];
    }
  }

  /** Walking on below a root without climbing above it stays inside, however many dot segments it takes. */
  lemma {:induction false} WalkingOnStaysInside(root: seq<string>, extra: seq<string>)
    requires Normalize(root).Some? && StaysBelow(extra)
    ensures Normalize(extra).Some? && Normalize(root + extra) == Some(Normalize(root).value + Normalize(extra).value)
  {
    RefusedIffClimbs(extra);
    if extra == [] {
      assert root + extra == root && Normalize(root).value + [] == Normalize(root).value;
    } else {
      var front := extra[..|extra| - 1];
      forall k | 0 <= k <= |front| ensures Level(front[..k]) >= 0 { assert front[..k] == extra[..k]; }
      WalkingOnStaysInside(root, front);
      RefusedIffClimbs(front);
      assert (root + extra)[..|root + extra| - 1] == root + front;
      assert extra[..|extra|] == extra;
      var a, b := Normalize(root).value, Normalize(front).value;
      var last := extra[|extra| - 1];
      assert (root + extra)[|root + extra| - 1] == last;
      if last == ".." { assert (a + b)[..|a + b| - 1] == a + b[..|b| - 1]; }
      assert (a + b) + [last] == a + (b + [last]);
    }
  }

  // ----- Containment ------------------------------------------------------------------------------

  datatype Url = Url(protocol: string, username: string, password: string, host: string, search: string, hash: string,
                     pathname: string)

  /** URL parsing and percent decoding; `None` where either throws. */
  datatype Platform = Platform(parse: string -> Option<Url>, decode: string -> Option<string>)

  function SegmentsOf(p: Platform, uri: string): Option<seq<string>> {
    match p.parse(uri) case None => None case Some(url) => Segments(p.decode(url.pathname))
  }

  predicate IsUriWithinWorkspaceRoot(p: Platform, documentUri: string, rootUri: string) {
    var document, root := p.parse(documentUri), p.parse(rootUri);
    && document.Some? && root.Some?
    && document.value.(pathname := "") == root.value.(pathname := "")
    && var d, r := SegmentsOf(p, documentUri), SegmentsOf(p, rootUri);
    && d.Some? && r.Some? && |r.value| <= |d.value|
    && forall i :: 0 <= i < |r.value| ==> d.value[i] == r.value[i]
  }

  /** Containment is a partial order on the URIs that normalize, and holds for no other. */
  lemma ContainmentIsAnOrder(p: Platform, a: string, b: string, c: string)
    ensures IsUriWithinWorkspaceRoot(p, a, a) <==> SegmentsOf(p, a).Some?
    ensures IsUriWithinWorkspaceRoot(p, a, b) && IsUriWithinWorkspaceRoot(p, b, c) ==> IsUriWithinWorkspaceRoot(p, a, c)
    ensures IsUriWithinWorkspaceRoot(p, a, b) && IsUriWithinWorkspaceRoot(p, b, a) ==>
            SegmentsOf(p, a) == SegmentsOf(p, b)
  {
    if IsUriWithinWorkspaceRoot(p, a, b) && IsUriWithinWorkspaceRoot(p, b, a) {
      assert SegmentsOf(p, a).value == SegmentsOf(p, b).value;
    }
  }

  function Joined(segments: seq<string>): string
    requires segments != []
  {
    if |segments| == 1 then segments[0] else segments[0] + "/" + Joined(segments[1..])
  }

  /** The parts of a text, put together again with a slash between them, are the text. */
  lemma {:induction false} SplitIsUndone(s: string)
    ensures Joined(Split(s)) == s
  {
    if s != "" {
      SplitIsUndone(s[1..]);
      var rest := Split(s[1..]);
      assert s == [s[0]] + s[1..];
      if s[0] == '/' {
        assert ([""] + rest)[1..] == rest;
      } else {
        assert ([[s[0]] + rest[0]] + rest[1..])[1..] == rest[1..];
      }
    }
  }

  /** A path has segments exactly when it decodes, holds no NUL and no backslash, and never climbs above its start. */
  lemma SegmentsAreTheWalk(decoded: Option<string>)
    ensures Segments(decoded) ==
      if decoded.Some? && '\0' !in decoded.value && '\\' !in decoded.value && StaysBelow(Split(decoded.value))
      then Some(Survivors(Split(decoded.value), |Split(decoded.value)|)) else None
  {
    if decoded.Some? { NormalizeIsTheWalk(Split(decoded.value)); }
    hide Split, StaysBelow, Survivors, Normalize;
  }

  predicate SameOrigin(d: Url, r: Url) {
    && d.protocol == r.protocol && d.username == r.username && d.password == r.password && d.host == r.host
    && d.search == r.search && d.hash == r.hash
  }

  /** Contained exactly when nothing but the path differs, and the path goes on from the root's. */
  lemma ContainedIff(p: Platform, documentUri: string, rootUri: string)
    ensures IsUriWithinWorkspaceRoot(p, documentUri, rootUri) <==>
      && p.parse(documentUri).Some? && p.parse(rootUri).Some?
      && SameOrigin(p.parse(documentUri).value, p.parse(rootUri).value)
      && SegmentsOf(p, documentUri).Some? && SegmentsOf(p, rootUri).Some?
      && exists below: seq<string> :: SegmentsOf(p, documentUri).value == SegmentsOf(p, rootUri).value + below
  {
    hide Segments;
    if IsUriWithinWorkspaceRoot(p, documentUri, rootUri) {
      var d, r := SegmentsOf(p, documentUri).value, SegmentsOf(p, rootUri).value;
      assert d == r + d[|r|..];
    }
  }
}
