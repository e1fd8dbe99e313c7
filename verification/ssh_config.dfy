/** Importing literal host aliases from an OpenSSH configuration and everything it includes. */
module SshConfig {
  import opened Prelude
  import opened StableSort

  type Path = string
  type FileId = string

  /** A configuration line after comments are cut off, by its keyword. */
  datatype Line = Host(values: seq<string>) | Include(patterns: seq<string>) | Other

  datatype Contents = Missing | Unreadable | Lines(lines: seq<Line>)

  /**
   What the traversal can ask of the file system: which file a path names, its lines, and what a pattern
   expands to.
   */
  datatype Disk = Disk(
    canonical: Path -> FileId,
    read: Path -> Contents,
    expand: (Path, string) -> Result<seq<Path>, string>)

  datatype Error = TooDeep | CannotRead(path: Path) | BadInclude(message: string)

  const MAX_DEPTH := 16

  predicate LiteralAlias(alias: string) {
    && alias != []
    && alias[0] != '!'
    && forall i :: 0 <= i < |alias| ==> alias[i] != '*' && alias[i] != '?' && alias[i] != '[' && alias[i] != ']'
  }

  // ---- what a literal alias selects

  /** A Host pattern of OpenSSH: a star stands for any text, a question mark for one character. */
  predicate Matches(pattern: string, host: string)
    decreases |pattern| + |host|
  {
    if pattern == [] then host == []
    else if pattern[0] == '*' then Matches(pattern[1..], host) || (host != [] && Matches(pattern, host[1..]))
    else host != [] && (pattern[0] == '?' || pattern[0] == host[0]) && Matches(pattern[1..], host[1..])
  }

  /** A star stands for exactly the texts before a rest that the remaining pattern matches. */
  lemma {:induction false} StarStandsForAnyText(rest: string, host: string)
    ensures Matches(['*'] + rest, host) <==> exists k :: 0 <= k <= |host| && Matches(rest, host[k..])
  {
    var pattern := ['*'] + rest;
    assert pattern[1..] == rest && host[0..] == host;
    if host != [] {
      StarStandsForAnyText(rest, host[1..]);
      forall k | 0 < k <= |host| ensures host[1..][k - 1..] == host[k..] {
      }
    }
  }

  /** A negated pattern selects no host by itself. */
  predicate Selects(pattern: string, host: string) {
    (pattern != [] ==> pattern[0] != '!') && Matches(pattern, host)
  }

  ghost predicate SelectsOnlyItself(pattern: string) {
    forall host :: Selects(pattern, host) <==> host == pattern
  }

  predicate HasWildcard(pattern: string) {
    exists i :: 0 <= i < |pattern| && (pattern[i] == '*' || pattern[i] == '?')
  }

  lemma {:induction false} PlainMatchesItself(pattern: string, host: string)
    requires !HasWildcard(pattern)
    ensures Matches(pattern, host) <==> host == pattern
  {
    if pattern != [] {
      assert pattern[0] != '*' && pattern[0] != '?';
      forall i | 0 <= i < |pattern[1..]| ensures pattern[1..][i] != '*' && pattern[1..][i] != '?' {
        assert pattern[1..][i] == pattern[i + 1];
      }
      if host != [] {
        PlainMatchesItself(pattern[1..], host[1..]);
        assert host == [host[0]] + host[1..] && pattern == [pattern[0]] + pattern[1..];
      }
    }
  }

  lemma {:induction false} MatchesSomething(pattern: string) returns (host: string)
    ensures Matches(pattern, host)
  {
    if pattern == [] {
      host := [];
    } else {
      var rest := MatchesSomething(pattern[1..]);
      host := if pattern[0] == '*' then rest else [if pattern[0] == '?' then 'x' else pattern[0]] + rest;
      assert pattern[0] != '*' ==> host[1..] == rest;
    }
  }

  /** A pattern with a wildcard also matches another text. */
  lemma {:induction false} WildcardMatchesMore(pattern: string) returns (host: string)
    requires HasWildcard(pattern)
    ensures Matches(pattern, host) && host != pattern
  {
    if pattern[0] == '*' || pattern[0] == '?' {
      var rest := MatchesSomething(pattern[1..]);
      host := ['x'] + rest;
      assert host[1..] == rest;
      assert pattern[0] == '*' ==> Matches(pattern, rest);
    } else {
      var i :| 0 <= i < |pattern| && (pattern[i] == '*' || pattern[i] == '?');
      assert pattern[1..][i - 1] == pattern[i];
      var rest := WildcardMatchesMore(pattern[1..]);
      host := [pattern[0]] + rest;
      assert host[1..] == rest;
    }
  }

  /** Imported are exactly the patterns that select one host, the one they spell; brackets are refused besides. */
  lemma LiteralsSelectThemselves(alias: string)
    ensures LiteralAlias(alias) <==> alias != [] && '[' !in alias && ']' !in alias && SelectsOnlyItself(alias)
  {
    hide Matches;
    if HasWildcard(alias) {
      var host := WildcardMatchesMore(alias);
      assert Selects(alias, host) || alias[0] == '!';
      assert Selects(alias, alias) ==> alias[0] != '!';
    } else {
      forall host ensures Matches(alias, host) <==> host == alias {
        PlainMatchesItself(alias, host);
      }
      assert Selects(alias, alias) <==> (alias != [] ==> alias[0] != '!');
    }
  }

  // ---- the include graph

  ghost predicate Offers(disk: Disk, p: Path, alias: string) {
    && disk.read(p).Lines?
    && LiteralAlias(alias)
    && exists line :: line in disk.read(p).lines && line.Host? && alias in line.values
  }

  ghost predicate Brings(disk: Disk, p: Path, line: Line, target: Path) {
    && line.Include?
    && exists pattern ::
         pattern in line.patterns && disk.expand(p, pattern).Ok? && target in disk.expand(p, pattern).value
  }

  ghost predicate Links(disk: Disk, p: Path, target: Path) {
    && disk.read(p).Lines?
    && exists line :: line in disk.read(p).lines && Brings(disk, p, line, target)
  }

  ghost predicate IsChain(disk: Disk, chain: seq<Path>) {
    forall i :: 0 <= i < |chain| - 1 ==> Links(disk, chain[i], chain[i + 1])
  }

  ghost predicate LeadsTo(disk: Disk, chain: seq<Path>, root: Path, p: Path) {
    |chain| > 0 && IsChain(disk, chain) && chain[0] == root && chain[|chain| - 1] == p
  }

  ghost predicate Reachable(disk: Disk, root: Path, p: Path) {
    exists chain :: LeadsTo(disk, chain, root, p)
  }

  ghost predicate DistinctFiles(disk: Disk, paths: seq<Path>) {
    forall i, j :: 0 <= i < j < |paths| ==> disk.canonical(paths[i]) != disk.canonical(paths[j])
  }

  /** Reachable paths naming the same file agree on its contents and on which files it includes. */
  ghost predicate Coherent(disk: Disk, root: Path) {
    forall p, q :: Reachable(disk, root, p) && Reachable(disk, root, q) && disk.canonical(p) == disk.canonical(q) ==>
      && disk.read(p) == disk.read(q)
      && SameTargets(disk, p, q)
  }

  ghost predicate SameTargets(disk: Disk, p: Path, q: Path) {
    forall t :: Links(disk, p, t) ==> exists u :: Links(disk, q, u) && disk.canonical(u) == disk.canonical(t)
  }

  // ---- what a finished file leaves behind

  ghost predicate LineSettled(disk: Disk, p: Path, line: Line, aliases: set<string>, visited: set<FileId>) {
    && (line.Host? ==> forall v :: v in line.values && LiteralAlias(v) ==> v in aliases)
    && (line.Include? ==> forall pattern :: pattern in line.patterns ==> PatternSettled(disk, p, pattern, visited))
  }

  ghost predicate PatternSettled(disk: Disk, p: Path, pattern: string, visited: set<FileId>) {
    disk.expand(p, pattern).Ok? && forall t :: t in disk.expand(p, pattern).value ==> disk.canonical(t) in visited
  }

  ghost predicate LinesSettled(disk: Disk, p: Path, lines: seq<Line>, aliases: set<string>, visited: set<FileId>) {
    forall i :: 0 <= i < |lines| ==> LineSettled(disk, p, lines[i], aliases, visited)
  }

  /** The file could be read, all its aliases are collected, and every file it includes has been visited. */
  ghost predicate Settled(disk: Disk, p: Path, aliases: set<string>, visited: set<FileId>) {
    && !disk.read(p).Unreadable?
    && (disk.read(p).Lines? ==> LinesSettled(disk, p, disk.read(p).lines, aliases, visited))
  }

  ghost predicate AllSettled(disk: Disk, paths: seq<Path>, aliases: set<string>, visited: set<FileId>) {
    forall i :: 0 <= i < |paths| ==> Settled(disk, paths[i], aliases, visited)
  }

  /** Why the traversal may refuse: a chain of 17 includes through distinct files, or a fault in a reachable file. */
  ghost predicate Explains(disk: Disk, root: Path, error: Error) {
    match error
    case TooDeep =>
      exists chain ::
        |chain| == MAX_DEPTH + 2 && IsChain(disk, chain) && chain[0] == root
          && DistinctFiles(disk, chain[..MAX_DEPTH + 1])
    case CannotRead(p) => Reachable(disk, root, p) && disk.read(p).Unreadable?
    case BadInclude(message) =>
      exists p, line, pattern ::
        && Reachable(disk, root, p) && disk.read(p).Lines? && line in disk.read(p).lines
        && line.Include? && pattern in line.patterns && disk.expand(p, pattern) == Err(message)
  }

  lemma LineStaysSettled(disk: Disk, p: Path, line: Line, a: set<string>, v: set<FileId>, a': set<string>,
                         v': set<FileId>)
    requires LineSettled(disk, p, line, a, v) && a <= a' && v <= v'
    ensures LineSettled(disk, p, line, a', v')
  {
  }

  lemma StaysSettled(disk: Disk, p: Path, a: set<string>, v: set<FileId>, a': set<string>, v': set<FileId>)
    requires Settled(disk, p, a, v) && a <= a' && v <= v'
    ensures Settled(disk, p, a', v')
  {
    if disk.read(p).Lines? {
      LinesStaySettled(disk, p, disk.read(p).lines, a, v, a', v');
    }
  }

  lemma LinesStaySettled(disk: Disk, p: Path, lines: seq<Line>, a: set<string>, v: set<FileId>, a': set<string>,
                         v': set<FileId>)
    requires LinesSettled(disk, p, lines, a, v) && a <= a' && v <= v'
    ensures LinesSettled(disk, p, lines, a', v')
  {
    hide LineSettled;
    forall i | 0 <= i < |lines| ensures LineSettled(disk, p, lines[i], a', v') {
      LineStaysSettled(disk, p, lines[i], a, v, a', v');
    }
  }

  /** Files settled earlier stay settled while later ones are entered. */
  lemma AllStaySettled(disk: Disk, n: nat, e: seq<Path>, a: set<string>, v: set<FileId>, e': seq<Path>,
                       a': set<string>, v': set<FileId>)
    requires n <= |e| && e <= e' && a <= a' && v <= v'
    requires AllSettled(disk, e[n..], a, v) && AllSettled(disk, e'[|e|..], a', v')
    ensures AllSettled(disk, e'[n..], a', v')
  {
    hide Settled;
    assert e'[n..] == e[n..] + e'[|e|..];
    forall i | 0 <= i < |e[n..]| ensures Settled(disk, e[n..][i], a', v') {
      StaysSettled(disk, e[n..][i], a, v, a', v');
    }
  }

  /** The include chain being followed: every file on it has been entered, and none twice. */
  ghost predicate OnTrail(disk: Disk, root: Path, visited: set<FileId>, trail: seq<Path>) {
    && |trail| > 0 && trail[0] == root
    && IsChain(disk, trail)
    && DistinctFiles(disk, trail)
    && forall i :: 0 <= i < |trail| ==> disk.canonical(trail[i]) in visited
  }

  /** The root was entered first, and every other path from one entered earlier. */
  ghost predicate Rooted(disk: Disk, root: Path, entered: seq<Path>) {
    forall i :: 0 <= i < |entered| ==> if i == 0 then entered[0] == root else LinkedFrom(disk, entered[..i], entered[i])
  }

  ghost predicate LinkedFrom(disk: Disk, entered: seq<Path>, p: Path) {
    exists j :: 0 <= j < |entered| && Links(disk, entered[j], p)
  }

  lemma LinkedFromMember(disk: Disk, entered: seq<Path>, member: Path, p: Path)
    requires member in entered && Links(disk, member, p)
    ensures LinkedFrom(disk, entered, p)
  {
    hide Links;
  }

  lemma {:induction false} RootedMeansReachable(disk: Disk, root: Path, entered: seq<Path>, i: nat)
    requires Rooted(disk, root, entered) && i < |entered|
    ensures Reachable(disk, root, entered[i])
  {
    hide Links;
    if i == 0 {
      assert LeadsTo(disk, [root], root, root);
    } else {
      assert LinkedFrom(disk, entered[..i], entered[i]);
      var j :| 0 <= j < i && Links(disk, entered[..i][j], entered[i]);
      RootedMeansReachable(disk, root, entered, j);
      var chain :| LeadsTo(disk, chain, root, entered[j]);
      assert LeadsTo(disk, chain + [entered[i]], root, entered[i]);
    }
  }

  lemma TrailGrows(disk: Disk, root: Path, visited: set<FileId>, trail: seq<Path>, p: Path)
    requires trail == [] ==> p == root
    requires trail != [] ==> OnTrail(disk, root, visited, trail) && Links(disk, trail[|trail| - 1], p)
    requires disk.canonical(p) !in visited
    ensures OnTrail(disk, root, visited + {disk.canonical(p)}, trail + [p])
  {
    hide Links;
  }

  lemma TrailReaches(disk: Disk, root: Path, visited: set<FileId>, trail: seq<Path>)
    requires OnTrail(disk, root, visited, trail)
    ensures Reachable(disk, root, trail[|trail| - 1])
  {
    hide Links;
    assert LeadsTo(disk, trail, root, trail[|trail| - 1]);
  }

  lemma TrailKept(disk: Disk, root: Path, visited: set<FileId>, visited': set<FileId>, trail: seq<Path>)
    requires OnTrail(disk, root, visited, trail) && visited <= visited'
    ensures OnTrail(disk, root, visited', trail)
  {
  }

  lemma BadIncludeExplains(disk: Disk, root: Path, visited: set<FileId>, trail: seq<Path>, line: Line, pattern: string,
                           message: string)
    requires OnTrail(disk, root, visited, trail) && disk.read(trail[|trail| - 1]).Lines?
    requires line in disk.read(trail[|trail| - 1]).lines && line.Include? && pattern in line.patterns
    requires disk.expand(trail[|trail| - 1], pattern) == Err(message)
    ensures Explains(disk, root, BadInclude(message))
  {
    TrailReaches(disk, root, visited, trail);
  }

  lemma UnreadableExplains(disk: Disk, root: Path, p: Path)
    requires Reachable(disk, root, p) && disk.read(p).Unreadable?
    ensures Explains(disk, root, CannotRead(p))
  {
  }

  lemma LongTrailExplains(disk: Disk, root: Path, visited: set<FileId>, trail: seq<Path>, p: Path)
    requires |trail| == MAX_DEPTH + 1 && OnTrail(disk, root, visited, trail) && Links(disk, trail[MAX_DEPTH], p)
    ensures Explains(disk, root, TooDeep)
  {
    hide Links;
    assert (trail + [p])[..MAX_DEPTH + 1] == trail;
  }

  // ---- the traversal

  class Importer {
    const disk: Disk
    const root: Path
    var aliases: set<string>
    var visited: set<FileId>
    /** The paths through which files were entered, in order. */
    ghost var entered: seq<Path>

    constructor (disk: Disk, root: Path)
      ensures Valid() && this.disk == disk && this.root == root && aliases == {} && visited == {} && entered == []
    {
      this.disk := disk;
      this.root := root;
      aliases := {};
      visited := {};
      entered := [];
    }

    /** Each file was entered once, from a file entered before it, and every alias comes from an entered file. */
    ghost predicate Valid()
      reads this
    {
      && (forall i :: 0 <= i < |entered| ==> disk.canonical(entered[i]) in visited)
      && (forall id :: id in visited ==> exists i :: 0 <= i < |entered| && disk.canonical(entered[i]) == id)
      && DistinctFiles(disk, entered)
      && Rooted(disk, root, entered)
      && (forall a :: a in aliases ==> exists i :: 0 <= i < |entered| && Offers(disk, entered[i], a))
    }

    /** Every file entered since the first `n` is finished with. */
    ghost predicate SettledFrom(n: nat)
      reads this
    {
      n <= |entered| && AllSettled(disk, entered[n..], aliases, visited)
    }

    twostate predicate Grown()
      reads this
    {
      old(aliases) <= aliases && old(visited) <= visited && old(entered) <= entered
    }

    method Visit(path: Path, depth: nat, ghost trail: seq<Path>) returns (r: Result<(), Error>)
      requires Valid() && depth == |trail| <= MAX_DEPTH + 1
      requires trail == [] ==> path == root && entered == []
      requires trail != [] ==>
                 OnTrail(disk, root, visited, trail) && trail[|trail| - 1] in entered
                   && Links(disk, trail[|trail| - 1], path)
      modifies this
      ensures Valid() && Grown()
      ensures r.Ok? ==> disk.canonical(path) in visited && SettledFrom(|old(entered)|)
      ensures r.Err? ==> Explains(disk, root, r.error)
      decreases MAX_DEPTH + 1 - depth, 3
    {
      hide Valid, LinesSettled, OnTrail, LinkedFrom, Links, Reachable, Explains;
      if depth > MAX_DEPTH {
        LongTrailExplains(disk, root, visited, trail, path);
        return Err(TooDeep);
      }
      if disk.canonical(path) in visited {
        return Ok(());
      }
      TrailGrows(disk, root, visited, trail, path);
      TrailReaches(disk, root, visited + {disk.canonical(path)}, trail + [path]);
      if trail != [] {
        LinkedFromMember(disk, entered, trail[|trail| - 1], path);
      }
      Enter(path);
      match disk.read(path) {
        case Missing =>
          return Ok(());
        case Unreadable =>
          UnreadableExplains(disk, root, path);
          return Err(CannotRead(path));
        case Lines(lines) =>
          r := VisitLines(path, lines, depth, trail + [path]);
          assert entered[|old(entered)|..] == [path] + entered[|old(entered)| + 1..];
      }
    }

    method Enter(path: Path)
      requires Valid() && disk.canonical(path) !in visited
      requires if entered == [] then path == root else LinkedFrom(disk, entered, path)
      modifies this
      ensures Valid() && aliases == old(aliases)
      ensures entered == old(entered) + [path] && visited == old(visited) + {disk.canonical(path)}
    {
      hide Offers, LinkedFrom;
      visited := visited + {disk.canonical(path)};
      entered := entered + [path];
      assert forall i :: 0 <= i <= |old(entered)| ==> entered[..i] == old(entered)[..i];
      forall id | id in visited ensures exists i :: 0 <= i < |entered| && disk.canonical(entered[i]) == id {
        if id == disk.canonical(path) {
          assert disk.canonical(entered[|old(entered)|]) == id;
        } else {
          var i :| 0 <= i < |old(entered)| && disk.canonical(old(entered)[i]) == id;
          assert disk.canonical(entered[i]) == id;
        }
      }
      forall a | a in aliases ensures exists i :: 0 <= i < |entered| && Offers(disk, entered[i], a) {
        var i :| 0 <= i < |old(entered)| && Offers(disk, old(entered)[i], a);
        assert Offers(disk, entered[i], a);
      }
    }

    method VisitLines(path: Path, lines: seq<Line>, depth: nat, ghost trail: seq<Path>) returns (r: Result<(), Error>)
      requires Valid() && depth + 1 == |trail| <= MAX_DEPTH + 1
      requires OnTrail(disk, root, visited, trail) && trail[depth] == path && path in entered
      requires disk.read(path) == Lines(lines)
      modifies this
      ensures Valid() && Grown()
      ensures r.Ok? ==> Settled(disk, path, aliases, visited) && SettledFrom(|old(entered)|)
      ensures r.Err? ==> Explains(disk, root, r.error)
      decreases MAX_DEPTH + 1 - depth, 2
    {
      hide Valid, OnTrail, LineSettled, Links, Offers, Explains;
      for i := 0 to |lines|
        invariant OnTrail(disk, root, visited, trail) && path in entered
        invariant Valid() && Grown() && SettledFrom(|old(entered)|)
        invariant LinesSettled(disk, path, lines[..i], aliases, visited)
      {
        ghost var e, a, v := entered, aliases, visited;
        r := VisitLine(path, lines[i], depth, trail);
        if r.Err? {
          return;
        }
        AllStaySettled(disk, |old(entered)|, e, a, v, entered, aliases, visited);
        LinesStaySettled(disk, path, lines[..i], a, v, aliases, visited);
        TrailKept(disk, root, v, visited, trail);
        assert lines[..i + 1] == lines[..i] + [lines[i]];
      }
      return Ok(());
    }

    method VisitLine(path: Path, line: Line, depth: nat, ghost trail: seq<Path>) returns (r: Result<(), Error>)
      requires Valid() && depth + 1 == |trail| <= MAX_DEPTH + 1 && OnTrail(disk, root, visited, trail)
      requires trail[depth] == path && path in entered
      requires disk.read(path).Lines? && line in disk.read(path).lines
      modifies this
      ensures Valid() && Grown()
      ensures r.Ok? ==> LineSettled(disk, path, line, aliases, visited) && SettledFrom(|old(entered)|)
      ensures r.Err? ==> Explains(disk, root, r.error)
      decreases MAX_DEPTH + 1 - depth, 1, 1
    {
      if line.Host? {
        AddAliases(path, line, line.values);
      } else if line.Include? {
        r := VisitIncludes(path, line, line.patterns, depth, trail);
        return;
      }
      return Ok(());
    }

    /** The literal positive values of a Host line. */
    method AddAliases(path: Path, line: Line, values: seq<string>)
      requires Valid() && line == Host(values) && path in entered && disk.read(path).Lines?
      requires line in disk.read(path).lines
      modifies this`aliases
      ensures Valid() && old(aliases) <= aliases
      ensures LineSettled(disk, path, line, aliases, visited)
    {
      hide Rooted, DistinctFiles;
      for i := 0 to |values|
        invariant Valid() && old(aliases) <= aliases
        invariant forall j :: 0 <= j < i && LiteralAlias(values[j]) ==> values[j] in aliases
      {
        if LiteralAlias(values[i]) {
          assert Offers(disk, path, values[i]);
          aliases := aliases + {values[i]};
        }
      }
    }

    method VisitIncludes(path: Path, line: Line, patterns: seq<string>, depth: nat, ghost trail: seq<Path>)
      returns (r: Result<(), Error>)
      requires Valid() && depth + 1 == |trail| <= MAX_DEPTH + 1 && OnTrail(disk, root, visited, trail)
      requires trail[depth] == path && path in entered
      requires line == Include(patterns) && disk.read(path).Lines? && line in disk.read(path).lines
      modifies this
      ensures Valid() && Grown()
      ensures r.Ok? ==> LineSettled(disk, path, line, aliases, visited) && SettledFrom(|old(entered)|)
      ensures r.Err? ==> Explains(disk, root, r.error)
      decreases MAX_DEPTH + 1 - depth, 1, 0
    {
      hide Valid, OnTrail, Settled, Offers, Explains;
      for i := 0 to |patterns|
        invariant OnTrail(disk, root, visited, trail) && path in entered
        invariant Valid() && Grown() && SettledFrom(|old(entered)|)
        invariant forall j :: 0 <= j < i ==> PatternSettled(disk, path, patterns[j], visited)
      {
        ghost var e, a, v := entered, aliases, visited;
        match disk.expand(path, patterns[i]) {
          case Err(message) =>
            BadIncludeExplains(disk, root, visited, trail, line, patterns[i], message);
            return Err(BadInclude(message));
          case Ok(targets) =>
            r := VisitAll(path, targets, depth, trail);
            if r.Err? {
              return;
            }
        }
        AllStaySettled(disk, |old(entered)|, e, a, v, entered, aliases, visited);
        TrailKept(disk, root, v, visited, trail);
      }
      return Ok(());
    }

    method VisitAll(path: Path, targets: seq<Path>, depth: nat, ghost trail: seq<Path>) returns (r: Result<(), Error>)
      requires Valid() && depth + 1 == |trail| <= MAX_DEPTH + 1 && OnTrail(disk, root, visited, trail)
      requires trail[depth] == path && path in entered
      requires forall t :: t in targets ==> Links(disk, path, t)
      modifies this
      ensures Valid() && Grown()
      ensures r.Ok? ==> SettledFrom(|old(entered)|) && forall t :: t in targets ==> disk.canonical(t) in visited
      ensures r.Err? ==> Explains(disk, root, r.error)
      decreases MAX_DEPTH + 1 - depth, 0
    {
      hide Valid, OnTrail, Settled, Links, Offers, Explains;
      for i := 0 to |targets|
        invariant OnTrail(disk, root, visited, trail) && path in entered
        invariant Valid() && Grown() && SettledFrom(|old(entered)|)
        invariant forall j :: 0 <= j < i ==> disk.canonical(targets[j]) in visited
      {
        ghost var e, a, v := entered, aliases, visited;
        r := Visit(targets[i], depth + 1, trail);
        if r.Err? {
          return;
        }
        AllStaySettled(disk, |old(entered)|, e, a, v, entered, aliases, visited);
        TrailKept(disk, root, v, visited, trail);
      }
      return Ok(());
    }
  }

  /**
   Success means: the entered paths name distinct files, start at the root, and are closed under includes,
   and the aliases are exactly those the entered files offer, each once and in order. On a coherent disk this is
   every reachable file.
   */
  method DiscoverLiteralAliases(disk: Disk, root: Path)
    returns (r: Result<seq<string>, Error>, ghost entered: seq<Path>)
    ensures r.Ok? ==> Traversed(disk, root, entered, Elements(r.value)) && Ascending(r.value)
    ensures r.Ok? ==>
              (Covers(disk, root, entered, Elements(r.value)) <==>
                SkipsAreHarmless(disk, root, entered, Elements(r.value)))
    ensures r.Ok? ==>
              (ExactlyReachable(disk, root, Elements(r.value)) <==> NothingLost(disk, root, entered, Elements(r.value)))
    ensures r.Ok? && Coherent(disk, root) ==> ExactlyReachable(disk, root, Elements(r.value))
    ensures r.Err? ==> Explains(disk, root, r.error)
  {
    hide Covers, SkipsAreHarmless, NothingLost, Traversed, Coherent, ExactlyReachable, Explains, Settled, Links, Offers;
    var importer := new Importer(disk, root);
    var outcome := importer.Visit(root, 0, []);
    entered := importer.entered;
    if outcome.Err? {
      return Err(outcome.error), entered;
    }
    FinishedMeansTraversed(importer);
    var aliases := InOrder(importer.aliases);
    CoversExactlyWithHarmlessSkips(disk, root, entered, importer.aliases);
    ExactExactlyWhenNothingLost(disk, root, entered, importer.aliases);
    if Coherent(disk, root) {
      TraversalIsExact(disk, root, entered, importer.aliases);
    }
    return Ok(aliases), entered;
  }

  /** Each once, in the order of strings. */
  ghost predicate Ascending(s: seq<string>) {
    forall i, j :: 0 <= i < j < |s| ==> StringLe(s[i], s[j]) && s[i] != s[j]
  }

  method InOrder(s: set<string>) returns (order: seq<string>)
    ensures Elements(order) == s && Ascending(order)
  {
    var some := Enumerate(s);
    var le := (a: string, b: string) => StringLe(a, b);
    order := Sort(some, le);
    SameMembers(order, some);
    DistinctStays(some, order);
    TextsOrder(le, (a: string) => a);
    SortSorts(some, le);
    forall i, j | 0 <= i < j < |order| ensures StringLe(order[i], order[j]) {
      assert le(order[i], order[j]);
    }
  }

  /**
   The files entered, in one place: distinct, found by includes from the root, closed under includes; their
   aliases and no others.
   */
  ghost predicate Traversed(disk: Disk, root: Path, entered: seq<Path>, aliases: set<string>) {
    && DistinctFiles(disk, entered)
    && Names(disk, entered, root)
    && Rooted(disk, root, entered)
    && (forall i :: 0 <= i < |entered| ==> !disk.read(entered[i]).Unreadable?)
    && (forall i, t :: 0 <= i < |entered| && Links(disk, entered[i], t) ==> Names(disk, entered, t))
    && (forall a :: a in aliases <==> exists i :: 0 <= i < |entered| && Offers(disk, entered[i], a))
  }

  ghost predicate Names(disk: Disk, entered: seq<Path>, p: Path) {
    exists i :: 0 <= i < |entered| && disk.canonical(entered[i]) == disk.canonical(p)
  }

  ghost predicate ExactlyReachable(disk: Disk, root: Path, aliases: set<string>) {
    forall a :: a in aliases <==> exists p :: Reachable(disk, root, p) && Offers(disk, p, a)
  }

  /** Every reachable file has been entered, and its aliases are collected. */
  ghost predicate Covers(disk: Disk, root: Path, entered: seq<Path>, aliases: set<string>) {
    forall p :: Reachable(disk, root, p) ==> Names(disk, entered, p) && forall a :: Offers(disk, p, a) ==> a in aliases
  }

  /** A reachable path skipped because its file was entered under another name would have brought nothing new. */
  ghost predicate SkipsAreHarmless(disk: Disk, root: Path, entered: seq<Path>, aliases: set<string>) {
    forall p :: Reachable(disk, root, p) && Names(disk, entered, p) ==> BringsNothingNew(disk, entered, aliases, p)
  }

  ghost predicate BringsNothingNew(disk: Disk, entered: seq<Path>, aliases: set<string>, p: Path) {
    && (forall t :: Links(disk, p, t) ==> Names(disk, entered, t))
    && (forall a :: Offers(disk, p, a) ==> a in aliases)
  }

  lemma SettledMeansClosed(disk: Disk, p: Path, aliases: set<string>, visited: set<FileId>)
    requires Settled(disk, p, aliases, visited)
    ensures forall t :: Links(disk, p, t) ==> disk.canonical(t) in visited
    ensures forall a :: Offers(disk, p, a) ==> a in aliases
  {
  }

  lemma FinishedMeansTraversed(importer: Importer)
    requires importer.Valid() && importer.SettledFrom(0) && importer.disk.canonical(importer.root) in importer.visited
    ensures Traversed(importer.disk, importer.root, importer.entered, importer.aliases)
  {
    hide Links, Offers;
    var disk, entered := importer.disk, importer.entered;
    forall i | 0 <= i < |entered|
      ensures !disk.read(entered[i]).Unreadable?
      ensures forall t :: Links(disk, entered[i], t) ==> disk.canonical(t) in importer.visited
      ensures forall a :: Offers(disk, entered[i], a) ==> a in importer.aliases
    {
      SettledMeansClosed(disk, entered[i], importer.aliases, importer.visited);
    }
  }

  lemma LinksStayInside(disk: Disk, root: Path, entered: seq<Path>, aliases: set<string>, p: Path, target: Path)
    requires Coherent(disk, root) && Traversed(disk, root, entered, aliases)
    requires Reachable(disk, root, p) && Names(disk, entered, p) && Links(disk, p, target)
    ensures Names(disk, entered, target)
  {
    hide Links, Offers, Rooted, Reachable, DistinctFiles, SameTargets;
    var i :| 0 <= i < |entered| && disk.canonical(entered[i]) == disk.canonical(p);
    RootedMeansReachable(disk, root, entered, i);
    var u := CounterpartTarget(disk, p, entered[i], target);
    assert Names(disk, entered, u);
  }

  lemma CounterpartTarget(disk: Disk, p: Path, q: Path, target: Path) returns (u: Path)
    requires SameTargets(disk, p, q) && Links(disk, p, target)
    ensures Links(disk, q, u) && disk.canonical(u) == disk.canonical(target)
  {
    hide Links;
    u :| Links(disk, q, u) && disk.canonical(u) == disk.canonical(target);
  }

  /** Every file a chain reaches has been entered, if no skip on the way lost one. */
  lemma {:induction false} ChainsStayInside(disk: Disk, root: Path, entered: seq<Path>, aliases: set<string>,
                                            chain: seq<Path>, p: Path)
    requires Names(disk, entered, root) && SkipsAreHarmless(disk, root, entered, aliases)
    requires LeadsTo(disk, chain, root, p)
    ensures Names(disk, entered, p)
    decreases |chain|
  {
    hide Links, Names, Offers;
    if |chain| > 1 {
      var shorter, before := chain[..|chain| - 1], chain[|chain| - 2];
      assert LeadsTo(disk, shorter, root, before) && Links(disk, before, p);
      assert Reachable(disk, root, before);
      hide LeadsTo, Reachable;
      ChainsStayInside(disk, root, entered, aliases, shorter, before);
      assert BringsNothingNew(disk, entered, aliases, before);
    }
  }

  lemma LinkedIsReachable(disk: Disk, root: Path, p: Path, t: Path)
    requires Reachable(disk, root, p) && Links(disk, p, t)
    ensures Reachable(disk, root, t)
  {
    hide Links;
    var chain :| LeadsTo(disk, chain, root, p);
    assert LeadsTo(disk, chain + [t], root, t);
  }

  /** A successful traversal covers everything reachable exactly when none of its skips lost something. */
  lemma CoversExactlyWithHarmlessSkips(disk: Disk, root: Path, entered: seq<Path>, aliases: set<string>)
    requires Traversed(disk, root, entered, aliases)
    ensures Covers(disk, root, entered, aliases) <==> SkipsAreHarmless(disk, root, entered, aliases)
    ensures Covers(disk, root, entered, aliases) ==> ExactlyReachable(disk, root, aliases)
  {
    hide Links, Offers, LeadsTo, Names, DistinctFiles, Rooted;
    if Covers(disk, root, entered, aliases) {
      forall p, t | Reachable(disk, root, p) && Links(disk, p, t) ensures Names(disk, entered, t) {
        LinkedIsReachable(disk, root, p, t);
      }
      forall a | a in aliases ensures exists p :: Reachable(disk, root, p) && Offers(disk, p, a) {
        var i :| 0 <= i < |entered| && Offers(disk, entered[i], a);
        RootedMeansReachable(disk, root, entered, i);
      }
    }
    if SkipsAreHarmless(disk, root, entered, aliases) {
      forall p | Reachable(disk, root, p)
        ensures Names(disk, entered, p) && forall a :: Offers(disk, p, a) ==> a in aliases {
        var chain :| LeadsTo(disk, chain, root, p);
        ChainsStayInside(disk, root, entered, aliases, chain, p);
        assert BringsNothingNew(disk, entered, aliases, p);
      }
    }
  }

  /** A reachable path at which the traversal turned back: its file had been entered, but under another name. */
  ghost predicate Skipped(disk: Disk, root: Path, entered: seq<Path>, p: Path) {
    Reachable(disk, root, p) && Names(disk, entered, p) && p !in entered
  }

  /** Every alias that lies at or behind a skipped path has been collected all the same. */
  ghost predicate NothingLost(disk: Disk, root: Path, entered: seq<Path>, aliases: set<string>) {
    forall skipped, p, a ::
      Skipped(disk, root, entered, skipped) && Reachable(disk, skipped, p) && Offers(disk, p, a) ==> a in aliases
  }

  ghost predicate BehindSkip(disk: Disk, root: Path, entered: seq<Path>, p: Path) {
    exists skipped :: Skipped(disk, root, entered, skipped) && Reachable(disk, skipped, p)
  }

  lemma ReachableFromItself(disk: Disk, p: Path)
    ensures Reachable(disk, p, p)
  {
    assert LeadsTo(disk, [p], p, p);
  }

  lemma {:induction false} ReachableBehind(disk: Disk, root: Path, p: Path, chain: seq<Path>, q: Path)
    requires Reachable(disk, root, p) && LeadsTo(disk, chain, p, q)
    ensures Reachable(disk, root, q)
    decreases |chain|
  {
    hide Links;
    if |chain| > 1 {
      var before := chain[|chain| - 2];
      assert LeadsTo(disk, chain[..|chain| - 1], p, before);
      ReachableBehind(disk, root, p, chain[..|chain| - 1], before);
      LinkedIsReachable(disk, root, before, q);
    }
  }

  /** What is reachable has been entered, or lies behind a skipped path. */
  lemma {:induction false} EnteredOrBehindSkip(disk: Disk, root: Path, entered: seq<Path>, aliases: set<string>,
                                               chain: seq<Path>, p: Path)
    requires Traversed(disk, root, entered, aliases) && LeadsTo(disk, chain, root, p)
    ensures p in entered || BehindSkip(disk, root, entered, p)
    decreases |chain|
  {
    hide Links, Names, Offers, DistinctFiles, Rooted;
    if |chain| == 1 {
      RootIsEntered(disk, root, entered);
    } else {
      var before := chain[|chain| - 2];
      assert LeadsTo(disk, chain[..|chain| - 1], root, before) && Links(disk, before, p);
      EnteredOrBehindSkip(disk, root, entered, aliases, chain[..|chain| - 1], before);
      if before in entered {
        assert Reachable(disk, root, p);
        assert Names(disk, entered, p);
        ReachableFromItself(disk, p);
      } else {
        hide Reachable, LeadsTo;
        var skipped :| Skipped(disk, root, entered, skipped) && Reachable(disk, skipped, before);
        LinkedIsReachable(disk, skipped, before, p);
      }
    }
  }

  lemma RootIsEntered(disk: Disk, root: Path, entered: seq<Path>)
    requires Rooted(disk, root, entered) && Names(disk, entered, root)
    ensures root in entered
  {
    assert entered[0] == root;
  }

  /** The aliases found are exactly those of the reachable files exactly when no skip lost one. */
  lemma ExactExactlyWhenNothingLost(disk: Disk, root: Path, entered: seq<Path>, aliases: set<string>)
    requires Traversed(disk, root, entered, aliases)
    ensures ExactlyReachable(disk, root, aliases) <==> NothingLost(disk, root, entered, aliases)
  {
    hide Links, Offers, Names, DistinctFiles, Rooted, LeadsTo;
    if ExactlyReachable(disk, root, aliases) {
      forall skipped, p, a | Skipped(disk, root, entered, skipped) && Reachable(disk, skipped, p) && Offers(disk, p, a)
        ensures a in aliases {
        var chain :| LeadsTo(disk, chain, skipped, p);
        ReachableBehind(disk, root, skipped, chain, p);
      }
    }
    if NothingLost(disk, root, entered, aliases) {
      forall a | a in aliases ensures exists p :: Reachable(disk, root, p) && Offers(disk, p, a) {
        var i :| 0 <= i < |entered| && Offers(disk, entered[i], a);
        RootedMeansReachable(disk, root, entered, i);
      }
      forall p, a | Reachable(disk, root, p) && Offers(disk, p, a) ensures a in aliases {
        var chain :| LeadsTo(disk, chain, root, p);
        EnteredOrBehindSkip(disk, root, entered, aliases, chain, p);
      }
    }
  }

  lemma CoherentSkipsAreHarmless(disk: Disk, root: Path, entered: seq<Path>, aliases: set<string>)
    requires Coherent(disk, root) && Traversed(disk, root, entered, aliases)
    ensures SkipsAreHarmless(disk, root, entered, aliases)
  {
    hide Links, Rooted, Reachable, DistinctFiles, SameTargets;
    forall p | Reachable(disk, root, p) && Names(disk, entered, p) ensures BringsNothingNew(disk, entered, aliases, p) {
      forall t | Links(disk, p, t) ensures Names(disk, entered, t) {
        LinksStayInside(disk, root, entered, aliases, p, t);
      }
      var i :| 0 <= i < |entered| && disk.canonical(entered[i]) == disk.canonical(p);
      RootedMeansReachable(disk, root, entered, i);
      assert disk.read(entered[i]) == disk.read(p);
      forall a | Offers(disk, p, a) ensures a in aliases {
        assert Offers(disk, entered[i], a);
      }
    }
  }

  /** The depth cut-off never truncates silently: success on a coherent disk covers exactly the reachable files. */
  lemma TraversalIsExact(disk: Disk, root: Path, entered: seq<Path>, aliases: set<string>)
    requires Coherent(disk, root) && Traversed(disk, root, entered, aliases)
    ensures Covers(disk, root, entered, aliases) && ExactlyReachable(disk, root, aliases)
  {
    hide Covers, SkipsAreHarmless, Traversed, Coherent, ExactlyReachable;
    CoherentSkipsAreHarmless(disk, root, entered, aliases);
    CoversExactlyWithHarmlessSkips(disk, root, entered, aliases);
  }

  // ---- an alias that is lost

  /** The directory of a path, up to and including its last slash. */
  function Directory(p: Path): Path {
    if p == [] || p[|p| - 1] == '/' then p else Directory(p[..|p| - 1])
  }

  /**
   One file under two names in different directories, "x/c" and "y/c". Its relative include is joined to
   the directory of the name it is read under, so it means "x/h" under the one and "y/h" under the other.
   */
  function TwoNamesOneFile(): Disk {
    Disk(
      p => if p == "x/c" || p == "y/c" then "f" else p,
      p => if p == "config" then Lines([Include(["x/c", "y/c"])])
           else if p == "x/c" || p == "y/c" then Lines([Include(["h"])])
           else if p == "x/h" then Lines([Host(["one"])])
           else if p == "y/h" then Lines([Host(["two"])])
           else Missing,
      (p, pattern) => Ok([Directory(p) + pattern]))
  }

  lemma {:induction false} NoDirectory(p: Path)
    requires '/' !in p
    ensures Directory(p) == []
  {
    if p != [] {
      NoDirectory(p[..|p| - 1]);
    }
  }

  lemma Directories()
    ensures Directory("config") == [] && Directory("x/c") == "x/" && Directory("y/c") == "y/"
  {
    NoDirectory("config");
    assert "x/c"[..2] == "x/" && "y/c"[..2] == "y/";
  }

  lemma OnlyLinks(p: Path, target: Path)
    ensures Links(TwoNamesOneFile(), p, target) <==>
              || (p == "config" && (target == "x/c" || target == "y/c"))
              || (p == "x/c" && target == "x/h")
              || (p == "y/c" && target == "y/h")
  {
    hide Directory;
    var disk := TwoNamesOneFile();
    Directories();
    assert [] + "x/c" == "x/c" && [] + "y/c" == "y/c" && "x/" + "h" == "x/h" && "y/" + "h" == "y/h";
    if p == "config" || p == "x/c" || p == "y/c" {
      var line := disk.read(p).lines[0];
      assert line in disk.read(p).lines && line.patterns[0] in line.patterns;
      assert p == "config" ==> line.patterns[1] in line.patterns;
    }
  }

  lemma OnlyOffers(p: Path, alias: string)
    ensures Offers(TwoNamesOneFile(), p, alias) <==> (p == "x/h" && alias == "one") || (p == "y/h" && alias == "two")
  {
    var disk := TwoNamesOneFile();
    if p == "x/h" || p == "y/h" {
      var line := disk.read(p).lines[0];
      assert line in disk.read(p).lines && line.values[0] in line.values;
    }
  }

  /** Coherence cannot be dropped: here no successful traversal finds every alias. */
  lemma TwoNamesLoseAnAlias(entered: seq<Path>, aliases: set<string>)
    requires Traversed(TwoNamesOneFile(), "config", entered, aliases)
    ensures !ExactlyReachable(TwoNamesOneFile(), "config", aliases)
  {
    var disk := TwoNamesOneFile();
    hide ExactlyReachable, Rooted, Offers, Links;
    if ExactlyReachable(disk, "config", aliases) {
      NameIsEntered(entered, aliases, "x/c", "x/h", "one");
      NameIsEntered(entered, aliases, "y/c", "y/h", "two");
    }
  }

  lemma NameIsEntered(entered: seq<Path>, aliases: set<string>, name: Path, target: Path, alias: string)
    requires Traversed(TwoNamesOneFile(), "config", entered, aliases)
    requires ExactlyReachable(TwoNamesOneFile(), "config", aliases)
    requires (name == "x/c" && target == "x/h" && alias == "one")
             || (name == "y/c" && target == "y/h" && alias == "two")
    ensures name in entered
  {
    var disk := TwoNamesOneFile();
    hide Links, Offers, DistinctFiles, TwoNamesOneFile;
    OnlyLinks("config", name);
    OnlyLinks(name, target);
    OnlyOffers(target, alias);
    assert LeadsTo(disk, ["config", name, target], "config", target);
    assert Offers(disk, target, alias) && alias in aliases;
    var i :| 0 <= i < |entered| && Offers(disk, entered[i], alias);
    OnlyOffers(entered[i], alias);
    assert i != 0 && LinkedFrom(disk, entered[..i], entered[i]);
    var j :| 0 <= j < i && Links(disk, entered[..i][j], target);
    OnlyLinks(entered[j], target);
  }

  /**
   Such a traversal exists: the program visits "config", "x/c" and "x/h", meets "y/c" as a file already
   visited, and succeeds.
   */
  lemma OneNameIsEnough()
    ensures Traversed(TwoNamesOneFile(), "config", ["config", "x/c", "x/h"], {"one"})
  {
    hide Links, Offers, TwoNamesOneFile, Rooted, Names, DistinctFiles;
    var disk, entered := TwoNamesOneFile(), ["config", "x/c", "x/h"];
    NamesOfFiles();
    OneNameIsRooted();
    forall i, t | 0 <= i < |entered| && Links(disk, entered[i], t) ensures Names(disk, entered, t) {
      OnlyLinks(entered[i], t);
    }
    forall a, i | 0 <= i < |entered| ensures Offers(disk, entered[i], a) <==> entered[i] == "x/h" && a == "one" {
      OnlyOffers(entered[i], a);
    }
    assert entered[2] == "x/h" && Offers(disk, entered[2], "one");
  }

  lemma OneNameIsRooted()
    ensures Rooted(TwoNamesOneFile(), "config", ["config", "x/c", "x/h"])
  {
    hide Links, TwoNamesOneFile;
    var disk, entered := TwoNamesOneFile(), ["config", "x/c", "x/h"];
    OnlyLinks("config", "x/c");
    OnlyLinks("x/c", "x/h");
    assert entered[..1][0] == "config" && entered[..2][1] == "x/c";
    assert Links(disk, entered[..1][0], entered[1]) && Links(disk, entered[..2][1], entered[2]);
  }

  lemma NamesOfFiles()
    ensures var disk, entered := TwoNamesOneFile(), ["config", "x/c", "x/h"];
            && (forall i :: 0 <= i < |entered| ==> !disk.read(entered[i]).Unreadable?)
            && DistinctFiles(disk, entered)
            && Names(disk, entered, "config") && Names(disk, entered, "x/c")
            && Names(disk, entered, "y/c") && Names(disk, entered, "x/h")
  {
    var disk, entered := TwoNamesOneFile(), ["config", "x/c", "x/h"];
    assert entered[0] == "config" && entered[1] == "x/c" && entered[2] == "x/h";
    assert disk.canonical(entered[1]) == disk.canonical("y/c");
  }
}
