/** The router: which route a request takes, and what its path parameters are. */
module Router {
  import opened Tables
  import opened GoText

  /** One segment of a pattern; a parameter may carry a regular expression, given by what it accepts. */
  datatype Segment = Star | Literal(text: string) | Param(name: string)
                   | RegexParam(name: string, accepts: string -> bool)

  /** Percent-decoding, which fails on malformed escapes. */
  type Unescape = string -> Option<string>

  function Decoded(value: string, unescape: Unescape): string {
    match unescape(value)
    case Some(s) => s
    case None => value
  }

  const SLASH := "/"

  // ---------------------------------------------------------------- what a match is

  /** The index of the first star from `i` on, or the number of segments. */
  function Stop(segs: seq<Segment>, i: nat): (r: nat)
    requires i <= |segs|
    ensures i <= r <= |segs|
    ensures forall j :: i <= j < r ==> !segs[j].Star?
    ensures r < |segs| ==> segs[r].Star?
    decreases |segs| - i
  {
    if i == |segs| || segs[i].Star? then i else Stop(segs, i + 1)
  }

  /** A segment can take this run of path parts. */
  predicate Takes(seg: Segment, run: seq<string>) {
    match seg
    case Star => false
    case Literal(text) => run == [text]
    case Param(_) => |run| == 1
    case RegexParam(_, accepts) => accepts(Join(run, SLASH))
  }

  function Start(ends: seq<nat>, pos: nat, j: nat): nat
    requires j <= |ends|
  {
    if j == 0 then pos else ends[j - 1]
  }

  /** Segment `i + j` takes the parts between the end before it and its own. */
  predicate TakesRun(segs: seq<Segment>, parts: seq<string>, i: nat, pos: nat, ends: seq<nat>, j: nat)
    requires j < |ends| && i + |ends| <= |segs|
  {
    var start := Start(ends, pos, j);
    start <= ends[j] <= |parts| && Takes(segs[i + j], parts[start..ends[j]])
  }

  ghost predicate AllTake(segs: seq<Segment>, parts: seq<string>, i: nat, pos: nat, ends: seq<nat>)
    requires i + |ends| <= |segs|
  {
    forall j :: 0 <= j < |ends| ==> TakesRun(segs, parts, i, pos, ends, j)
  }

  /** `ends` divides the parts from `pos` on among the segments from `i` on: each segment before the first star
      takes the run up to its end, and without a star nothing is left over. */
  ghost predicate Divides(segs: seq<Segment>, parts: seq<string>, i: nat, pos: nat, ends: seq<nat>)
    requires i <= |segs|
  {
    && |ends| == Stop(segs, i) - i
    && AllTake(segs, parts, i, pos, ends)
    && (Stop(segs, i) == |segs| ==> Start(ends, pos, |ends|) == |parts|)
  }

  /** At the first difference `a` reaches further: its runs are longer from the left. */
  ghost predicate Greedier(a: seq<nat>, b: seq<nat>) {
    a != b ==> exists k :: 0 <= k < |a| && k < |b| && a[..k] == b[..k] && a[k] > b[k]
  }

  function Names(segs: seq<Segment>, i: nat): set<string>
    requires i <= |segs|
    decreases |segs| - i
  {
    if i == |segs| || segs[i].Star? then {}
    else (if segs[i].Literal? then {} else {segs[i].name}) + Names(segs, i + 1)
  }

  /** The parameters of a division, later segments over earlier ones. */
  function Bindings(segs: seq<Segment>, parts: seq<string>, i: nat, pos: nat, ends: seq<nat>,
                    unescape: Unescape): (m: map<string, string>)
    requires i + |ends| <= |segs|
    decreases |ends|
  {
    if ends == [] then map[]
    else
      var rest := Bindings(segs, parts, i + 1, ends[0], ends[1..], unescape);
      if (segs[i].Param? || segs[i].RegexParam?) && pos <= ends[0] <= |parts| then
        map[segs[i].name := Decoded(Join(parts[pos..ends[0]], SLASH), unescape)] + rest
      else rest
  }

  // ---------------------------------------------------------------- the search

  /** The division the matcher finds, longest runs first. */
  function Search(segs: seq<Segment>, parts: seq<string>, i: nat, pos: nat): (r: Option<seq<nat>>)
    requires i <= |segs| && pos <= |parts|
    ensures r.Some? ==> i + |r.value| <= |segs|
    decreases |segs| - i, 1, 0
  {
    if i == |segs| then if pos == |parts| then Some([]) else None
    else if segs[i].Star? then Some([])
    else if segs[i].RegexParam? then SearchFrom(segs, parts, i, pos, |parts|)
    else if pos == |parts| || !Takes(segs[i], [parts[pos]]) then None
    else Prefixed(pos + 1, Search(segs, parts, i + 1, pos + 1))
  }

  /** Ends of the run of segment `i` from `end` down. */
  function SearchFrom(segs: seq<Segment>, parts: seq<string>, i: nat, pos: nat, end: nat): (r: Option<seq<nat>>)
    requires i < |segs| && pos <= end <= |parts|
    ensures r.Some? ==> i + |r.value| <= |segs|
    decreases |segs| - i, 0, end
  {
    var here := if Takes(segs[i], parts[pos..end]) then Prefixed(end, Search(segs, parts, i + 1, end)) else None;
    if here.Some? || end == pos then here else SearchFrom(segs, parts, i, pos, end - 1)
  }

  function Prefixed(end: nat, r: Option<seq<nat>>): Option<seq<nat>> {
    if r.None? then None else Some([end] + r.value)
  }

  lemma RunShifts(segs: seq<Segment>, parts: seq<string>, i: nat, pos: nat, end: nat, rest: seq<nat>, j: nat)
    requires j < |rest| && i + 1 + |rest| <= |segs|
    ensures TakesRun(segs, parts, i, pos, [end] + rest, j + 1) == TakesRun(segs, parts, i + 1, end, rest, j)
  {
  }

  lemma DividesStep(segs: seq<Segment>, parts: seq<string>, i: nat, pos: nat, end: nat, rest: seq<nat>)
    requires i < |segs| && !segs[i].Star?
    ensures Divides(segs, parts, i, pos, [end] + rest)
       <==> pos <= end <= |parts| && Takes(segs[i], parts[pos..end]) && Divides(segs, parts, i + 1, end, rest)
  {
    var ends := [end] + rest;
    var stop := Stop(segs, i);
    assert stop == Stop(segs, i + 1);
    if |ends| == stop - i {
      assert TakesRun(segs, parts, i, pos, ends, 0) <==> pos <= end <= |parts| && Takes(segs[i], parts[pos..end]);
      assert Start(ends, pos, |ends|) == Start(rest, end, |rest|);
      hide Takes, Stop, TakesRun;
      ShiftAll(segs, parts, i, pos, end, rest);
    }
  }

  lemma ShiftAll(segs: seq<Segment>, parts: seq<string>, i: nat, pos: nat, end: nat, rest: seq<nat>)
    requires i + 1 + |rest| <= |segs|
    ensures AllTake(segs, parts, i, pos, [end] + rest)
       <==> TakesRun(segs, parts, i, pos, [end] + rest, 0) && AllTake(segs, parts, i + 1, end, rest)
  {
    hide TakesRun;
    var ends, next := [end] + rest, i + 1;
    if AllTake(segs, parts, i, pos, ends) {
      forall j | 0 <= j < |rest|
        ensures TakesRun(segs, parts, next, end, rest, j)
      {
        RunShifts(segs, parts, i, pos, end, rest, j);
      }
    }
    if TakesRun(segs, parts, i, pos, ends, 0) && AllTake(segs, parts, next, end, rest) {
      forall j | 0 <= j < |ends|
        ensures TakesRun(segs, parts, i, pos, ends, j)
      {
        if j > 0 {
          RunShifts(segs, parts, i, pos, end, rest, j - 1);
        }
      }
    }
  }

  lemma GreedierStep(end: nat, a: seq<nat>, other: seq<nat>)
    requires other != [] && (other[0] < end || (other[0] == end && Greedier(a, other[1..])))
    ensures Greedier([end] + a, other)
  {
    var mine := [end] + a;
    if other[0] < end {
      assert mine[..0] == other[..0];
    } else if mine != other {
      assert other == [end] + other[1..];
      var k :| 0 <= k < |a| && k < |other[1..]| && a[..k] == other[1..][..k] && a[k] > other[1..][k];
      assert mine[..k + 1] == [end] + a[..k] && other[..k + 1] == [end] + other[1..][..k];
      assert mine[k + 1] > other[k + 1];
    }
  }

  /** The search finds a division whenever there is one, and the one that is greediest from the left. */
  lemma {:induction false} SearchLaw(segs: seq<Segment>, parts: seq<string>, i: nat, pos: nat)
    requires i <= |segs| && pos <= |parts|
    ensures var r := Search(segs, parts, i, pos);
            (r.Some? ==> Divides(segs, parts, i, pos, r.value))
            && forall other :: Divides(segs, parts, i, pos, other) ==> r.Some? && Greedier(r.value, other)
    decreases |segs| - i, 1, 0
  {
    hide Takes, Greedier;
    var r := Search(segs, parts, i, pos);
    if i == |segs| || segs[i].Star? {
      NothingToDivide(segs, parts, i, pos);
    } else if segs[i].RegexParam? {
      SearchFromLaw(segs, parts, i, pos, |parts|);
    } else {
      if pos < |parts| && Takes(segs[i], [parts[pos]]) {
        SearchLaw(segs, parts, i + 1, pos + 1);
        assert parts[pos..pos + 1] == [parts[pos]];
        if r.Some? {
          DividesStep(segs, parts, i, pos, pos + 1, r.value[1..]);
        }
      }
      forall other | Divides(segs, parts, i, pos, other)
        ensures r.Some? && Greedier(r.value, other)
      {
        OneEach(segs, parts, i, pos, other);
        GreedierStep(pos + 1, r.value[1..], other);
      }
    }
  }

  lemma NothingToDivide(segs: seq<Segment>, parts: seq<string>, i: nat, pos: nat)
    requires i <= |segs| && pos <= |parts| && (i == |segs| || segs[i].Star?)
    ensures forall ends :: Divides(segs, parts, i, pos, ends) <==> ends == [] && (i == |segs| ==> pos == |parts|)
    ensures Greedier([], [])
  {
  }

  /** A segment without a regular expression takes exactly one part. */
  lemma OneEach(segs: seq<Segment>, parts: seq<string>, i: nat, pos: nat, ends: seq<nat>)
    requires i < |segs| && (segs[i].Literal? || segs[i].Param?) && Divides(segs, parts, i, pos, ends)
    ensures pos < |parts| && ends != [] && ends[0] == pos + 1
    ensures Takes(segs[i], [parts[pos]]) && Divides(segs, parts, i + 1, pos + 1, ends[1..])
  {
    assert ends != [];
    assert ends == [ends[0]] + ends[1..];
    DividesStep(segs, parts, i, pos, ends[0], ends[1..]);
    assert parts[pos..ends[0]] == [parts[pos]];
  }

  lemma {:induction false} SearchFromLaw(segs: seq<Segment>, parts: seq<string>, i: nat, pos: nat, end: nat)
    requires i < |segs| && segs[i].RegexParam? && pos <= end <= |parts|
    ensures var r := SearchFrom(segs, parts, i, pos, end);
            (r.Some? ==> r.value != [] && r.value[0] <= end && Divides(segs, parts, i, pos, r.value))
            && forall other :: Divides(segs, parts, i, pos, other) && other != [] && other[0] <= end ==>
              r.Some? && Greedier(r.value, other)
    ensures forall other :: Divides(segs, parts, i, pos, other) ==> other != [] && pos <= other[0] <= |parts|
    decreases |segs| - i, 0, end
  {
    hide Takes, Greedier, Divides;
    var r := SearchFrom(segs, parts, i, pos, end);
    SearchLaw(segs, parts, i + 1, end);
    if end > pos {
      SearchFromLaw(segs, parts, i, pos, end - 1);
    }
    if r.Some? && r.value[0] == end {
      DividesStep(segs, parts, i, pos, end, r.value[1..]);
      assert r.value == [end] + r.value[1..];
    }
    forall other | Divides(segs, parts, i, pos, other)
      ensures other != [] && pos <= other[0] <= |parts|
      ensures other[0] <= end ==> r.Some? && Greedier(r.value, other)
    {
      DivisionStarts(segs, parts, i, pos, other);
      if other[0] == end {
        DividesStep(segs, parts, i, pos, end, other[1..]);
        assert other == [end] + other[1..];
        GreedierStep(end, r.value[1..], other);
      } else if other[0] < end && r.Some? && r.value[0] == end {
        GreedierStep(end, r.value[1..], other);
      }
    }
  }

  lemma DivisionStarts(segs: seq<Segment>, parts: seq<string>, i: nat, pos: nat, ends: seq<nat>)
    requires i < |segs| && !segs[i].Star? && Divides(segs, parts, i, pos, ends)
    ensures ends != [] && pos <= ends[0] <= |parts|
  {
    assert ends != [];
    assert TakesRun(segs, parts, i, pos, ends, 0);
  }

  // ---------------------------------------------------------------- the matcher as it runs

  class Params {
    var m: map<string, string>

    constructor ()
      ensures m == map[]
    {
      m := map[];
    }
  }

  /** A failed match has taken away at most the names it tried. */
  ghost predicate OnlyDropped(now: map<string, string>, was: map<string, string>, names: set<string>) {
    && (forall k :: k in now ==> k in was && now[k] == was[k])
    && (forall k :: k in was && k !in now ==> k in names)
  }

  lemma {:induction false} BindingNames(segs: seq<Segment>, parts: seq<string>, i: nat, pos: nat, ends: seq<nat>,
                                        unescape: Unescape)
    requires i <= |segs| && Divides(segs, parts, i, pos, ends)
    ensures Bindings(segs, parts, i, pos, ends, unescape).Keys == Names(segs, i)
    decreases |segs| - i
  {
    if i < |segs| && !segs[i].Star? {
      hide Takes;
      DivisionStarts(segs, parts, i, pos, ends);
      assert ends == [ends[0]] + ends[1..];
      DividesStep(segs, parts, i, pos, ends[0], ends[1..]);
      BindingNames(segs, parts, i + 1, ends[0], ends[1..], unescape);
    } else {
      assert ends == [];
    }
  }

  /** Setting a name and then everything the rest binds hides what earlier tries dropped. */
  lemma BindingOverDrops(was: map<string, string>, now: map<string, string>, name: string, value: string,
                         rest: map<string, string>, names: set<string>)
    requires OnlyDropped(now, was, names) && names <= {name} + rest.Keys
    ensures now[name := value] + rest == was + (map[name := value] + rest)
  {
  }

  /** The matcher succeeds exactly when the parts can be divided among the segments. It then has added the
      parameters of the division that is greediest from the left; a failed match adds nothing. */
  method MatchSegments(segs: seq<Segment>, parts: seq<string>, i: nat, pos: nat, params: Params,
                       unescape: Unescape) returns (ok: bool)
    requires i <= |segs| && pos <= |parts|
    modifies params
    ensures ok <==> Search(segs, parts, i, pos).Some?
    ensures ok ==>
      params.m == old(params.m) + Bindings(segs, parts, i, pos, Search(segs, parts, i, pos).value, unescape)
    ensures !ok ==> OnlyDropped(params.m, old(params.m), Names(segs, i))
    ensures !ok && Names(segs, i) !! old(params.m).Keys ==> params.m == old(params.m)
    decreases |segs| - i
  {
    hide Divides, Takes;
    SearchLaw(segs, parts, i, pos);
    if i == |segs| {
      return pos == |parts|;
    }
    var seg := segs[i];
    if seg.Star? {
      return true;
    }
    if seg.RegexParam? {
      ok := MatchRegex(segs, parts, i, pos, params, unescape);
      return;
    }
    if pos >= |parts| {
      return false;
    }
    TakesOne(seg, parts[pos]);
    if seg.Param? {
      params.m := params.m[seg.name := Decoded(parts[pos], unescape)];
      ok := MatchSegments(segs, parts, i + 1, pos + 1, params, unescape);
      if ok {
        JoinOne(parts, pos);
        var rest := Search(segs, parts, i + 1, pos + 1).value;
        AddedBinding(old(params.m), seg.name, Decoded(parts[pos], unescape),
                     Bindings(segs, parts, i + 1, pos + 1, rest, unescape));
        assert ([pos + 1] + rest)[1..] == rest;
        return true;
      }
      params.m := params.m - {seg.name};
      return false;
    }
    if seg.text != parts[pos] {
      return false;
    }
    ok := MatchSegments(segs, parts, i + 1, pos + 1, params, unescape);
    if ok {
      var rest := Search(segs, parts, i + 1, pos + 1).value;
      assert ([pos + 1] + rest)[1..] == rest;
    }
  }

  /** The loop over the runs of a parameter with a regular expression, longest first. */
  method MatchRegex(segs: seq<Segment>, parts: seq<string>, i: nat, pos: nat, params: Params,
                    unescape: Unescape) returns (ok: bool)
    requires i < |segs| && segs[i].RegexParam? && pos <= |parts|
    modifies params
    ensures ok <==> Search(segs, parts, i, pos).Some?
    ensures ok ==>
      params.m == old(params.m) + Bindings(segs, parts, i, pos, Search(segs, parts, i, pos).value, unescape)
    ensures !ok ==> OnlyDropped(params.m, old(params.m), Names(segs, i))
    decreases |segs| - i, 0
  {
    hide Divides;
    var seg := segs[i];
    var end: int := |parts|;
    while end >= pos
      invariant pos - 1 <= end <= |parts|
      invariant OnlyDropped(params.m, old(params.m), Names(segs, i))
      invariant Search(segs, parts, i, pos) == if end >= pos then SearchFrom(segs, parts, i, pos, end) else None
      decreases end
    {
      var value := Join(parts[pos..end], SLASH);
      if seg.accepts(value) {
        ghost var tried := params.m;
        params.m := params.m[seg.name := Decoded(value, unescape)];
        ok := MatchSegments(segs, parts, i + 1, end, params, unescape);
        if ok {
          var rest := Search(segs, parts, i + 1, end).value;
          SearchLaw(segs, parts, i + 1, end);
          BindingNames(segs, parts, i + 1, end, rest, unescape);
          BindingOverDrops(old(params.m), tried, seg.name, Decoded(value, unescape),
                           Bindings(segs, parts, i + 1, end, rest, unescape), Names(segs, i));
          assert ([end as nat] + rest)[1..] == rest;
          return true;
        }
        params.m := params.m - {seg.name};
      }
      end := end - 1;
    }
    return false;
  }

  lemma TakesOne(seg: Segment, part: string)
    ensures seg.Param? ==> Takes(seg, [part])
    ensures seg.Literal? ==> Takes(seg, [part]) == (seg.text == part)
  {
  }

  lemma JoinOne(parts: seq<string>, pos: nat)
    requires pos < |parts|
    ensures Join(parts[pos..pos + 1], SLASH) == parts[pos]
  {
  }

  lemma AddedBinding(was: map<string, string>, name: string, value: string, rest: map<string, string>)
    ensures was[name := value] + rest == was + (map[name := value] + rest)
  {
  }

  // ---------------------------------------------------------------- paths

  function NormalizePath(path: string): (r: string)
    ensures r != "" && r[0] == '/'
  {
    if path == "" then SLASH else if path[0] == '/' then path else SLASH + path
  }

  function SplitPath(path: string): seq<string> {
    var normal := NormalizePath(path);
    if normal == SLASH then [] else Split(normal[1..], '/')
  }

  /** Splitting a path loses nothing. */
  lemma PathJoins(path: string)
    ensures NormalizePath(path) == SLASH + Join(SplitPath(path), SLASH)
  {
    var normal := NormalizePath(path);
    JoinSplit(normal[1..], '/');
    assert normal == SLASH + normal[1..];
  }

  lemma PathSplits(parts: seq<string>)
    requires parts != [] && parts != [""] && forall i :: 0 <= i < |parts| ==> '/' !in parts[i]
    ensures SplitPath(SLASH + Join(parts, SLASH)) == parts
  {
    SplitJoin(parts, '/');
    var path := SLASH + Join(parts, SLASH);
    assert path[1..] == Join(parts, SLASH);
  }

  predicate HasPathPrefix(prefix: string, path: string) {
    prefix == SLASH || path == prefix || prefix + SLASH <= path
  }

  function StripPrefix(prefix: string, path: string): string {
    if prefix == SLASH then path
    else
      var stripped := if prefix <= path then path[|prefix|..] else path;
      if stripped == "" then SLASH else if stripped[0] != '/' then SLASH + stripped else stripped
  }

  /** A mounted handler sees the rest of the path behind the prefix, which always starts with a slash. */
  lemma StripLaw(prefix: string, path: string)
    requires path != "" && path[0] == '/' && HasPathPrefix(prefix, path)
    ensures StripPrefix(prefix, path) != "" && StripPrefix(prefix, path)[0] == '/'
    ensures prefix != SLASH ==> path == prefix || path == prefix + StripPrefix(prefix, path)
  {
    if prefix != SLASH && path != prefix {
      assert path[|prefix|] == (prefix + SLASH)[|prefix|] == '/';
      assert prefix <= prefix + SLASH <= path;
    }
  }

  // ---------------------------------------------------------------- routes

  datatype Route = Pattern(verb: string, segments: seq<Segment>) | Mount(verb: string, prefix: string)

  ghost predicate Greediest(segs: seq<Segment>, parts: seq<string>, ends: seq<nat>) {
    Divides(segs, parts, 0, 0, ends) && forall other :: Divides(segs, parts, 0, 0, other) ==> Greedier(ends, other)
  }

  lemma PrefixesAgree(a: seq<nat>, b: seq<nat>, n: nat)
    requires n <= |a| && n <= |b| && a[..n] == b[..n]
    ensures forall j :: 0 <= j < n ==> a[j] == b[j]
  {
    assert forall j :: 0 <= j < n ==> a[..n][j] == a[j] && b[..n][j] == b[j];
  }

  lemma FirstDifference(a: seq<nat>, b: seq<nat>, k: nat, l: nat)
    requires k < |a| && k < |b| && a[..k] == b[..k] && a[k] != b[k]
    requires l < |a| && l < |b| && a[..l] == b[..l] && a[l] != b[l]
    ensures k == l
  {
    PrefixesAgree(a, b, l);
    PrefixesAgree(a, b, k);
  }

  /** There is at most one greediest division. */
  lemma GreediestUnique(segs: seq<Segment>, parts: seq<string>, a: seq<nat>, b: seq<nat>)
    requires Greediest(segs, parts, a) && Greediest(segs, parts, b)
    ensures a == b
  {
    if a != b {
      assert Greedier(a, b) && Greedier(b, a);
      var k :| 0 <= k < |a| && k < |b| && a[..k] == b[..k] && a[k] > b[k];
      var l :| 0 <= l < |a| && l < |b| && a[..l] == b[..l] && b[l] > a[l];
      FirstDifference(a, b, k, l);
    }
  }

  /** The route takes requests of this method and path. */
  ghost predicate Accepts(route: Route, verb: string, path: string) {
    (route.verb == "*" || route.verb == verb) &&
    match route
    case Mount(_, prefix) => HasPathPrefix(prefix, NormalizePath(path))
    case Pattern(_, segments) => exists ends :: Divides(segments, SplitPath(path), 0, 0, ends)
  }

  ghost predicate HasParams(route: Route, path: string, params: map<string, string>, unescape: Unescape) {
    match route
    case Mount(_, _) => params == map[]
    case Pattern(_, segments) =>
      exists ends :: Greediest(segments, SplitPath(path), ends) && |ends| <= |segments|
        && params == Bindings(segments, SplitPath(path), 0, 0, ends, unescape)
  }

  method MatchRoute(route: Route, verb: string, path: string, unescape: Unescape)
    returns (r: Option<map<string, string>>)
    ensures r.Some? <==> Accepts(route, verb, path)
    ensures r.Some? ==> HasParams(route, path, r.value, unescape)
  {
    if route.verb != "*" && route.verb != verb {
      return None;
    }
    if route.Mount? {
      return if HasPathPrefix(route.prefix, NormalizePath(path)) then Some(map[]) else None;
    }
    var parts := SplitPath(path);
    var params := new Params();
    SearchLaw(route.segments, parts, 0, 0);
    var ok := MatchSegments(route.segments, parts, 0, 0, params, unescape);
    if !ok {
      return None;
    }
    ghost var ends := Search(route.segments, parts, 0, 0).value;
    assert Greediest(route.segments, parts, ends);
    assert map[] + Bindings(route.segments, parts, 0, 0, ends, unescape)
      == Bindings(route.segments, parts, 0, 0, ends, unescape);
    return Some(params.m);
  }

  datatype Outcome = Handled(route: nat, params: map<string, string>) | Fallback | NotFound

  /** The first route that accepts the request; for HEAD, if there is none, the first GET route that would. */
  ghost predicate IsFirst(routes: seq<Route>, k: nat, verb: string, path: string) {
    k < |routes| && Accepts(routes[k], verb, path) && forall j :: 0 <= j < k ==> !Accepts(routes[j], verb, path)
  }

  ghost predicate AsGet(route: Route, path: string) {
    route.verb == "GET" && Accepts(route, "GET", path)
  }

  ghost predicate NoneAccepts(routes: seq<Route>, verb: string, path: string) {
    forall j :: 0 <= j < |routes| ==> !Accepts(routes[j], verb, path)
  }

  method Dispatch(routes: seq<Route>, hasFallback: bool, verb: string, path: string,
                  unescape: Unescape) returns (r: Outcome)
    ensures r.Handled? ==> r.route < |routes| && HasParams(routes[r.route], path, r.params, unescape)
    ensures r.Handled? ==>
      IsFirst(routes, r.route, verb, path)
      || (NoneAccepts(routes, verb, path) && verb == "HEAD" && AsGet(routes[r.route], path)
          && forall j :: 0 <= j < r.route ==> !AsGet(routes[j], path))
    ensures !r.Handled? <==>
      NoneAccepts(routes, verb, path) && (verb == "HEAD" ==> forall j :: 0 <= j < |routes| ==> !AsGet(routes[j], path))
    ensures !r.Handled? ==> r == if hasFallback then Fallback else NotFound
  {
    hide Accepts, HasParams;
    for i := 0 to |routes|
      invariant forall j :: 0 <= j < i ==> !Accepts(routes[j], verb, path)
    {
      var m := MatchRoute(routes[i], verb, path, unescape);
      if m.Some? {
        return Handled(i, m.value);
      }
    }
    if verb == "HEAD" {
      for i := 0 to |routes|
        invariant forall j :: 0 <= j < i ==> !AsGet(routes[j], path)
      {
        if routes[i].verb != "GET" {
          continue;
        }
        var m := MatchRoute(routes[i], "GET", path, unescape);
        if m.Some? {
          return Handled(i, m.value);
        }
      }
    }
    return if hasFallback then Fallback else NotFound;
  }
}
