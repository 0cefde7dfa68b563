/** Route patterns: the dynamic test, the pattern compiler and the matcher
    that prefers exact routes over dynamic ones.

    The compiler is modelled as the code has it. Its escape step does not
    escape `*` or `:`, so for a pattern without a backslash the two rewrites
    that follow it (a wildcard rewrite and a named-segment rewrite, both
    looking for a backslash before `*` or `:`) never find anything. The
    resulting regular expression is a chain of literal characters, where each
    `*` repeats the character before it. A compiled pattern is therefore a
    list of atoms, a character with an optional star. */
module RouteMatchers {
  import opened Js

  /** `routePath.includes(':') || routePath.includes('*')`. */
  function IsDynamicPath(p: string): (b: bool)
    ensures !b && '\\' !in p ==> Compile(p) == Some(Literal(p))
  {
    if ':' in p || '*' in p then true
    else
      (if '\\' !in p then LiteralPatternMatchesItself(p, p); false else false)
  }

  /** The characters the escape step prefixes with a backslash:
      `[-/\\^$+?.()|[\]{}]`. `*` and `:` are not among them. */
  predicate IsEscaped(c: char)
  {
    c in {'-', '/', '\\', '^', '$', '+', '?', '.', '(', ')', '|', '[', ']', '{', '}'}
  }

  /** `routePath.replace(/[-/\\^$+?.()|[\]{}]/g, '\\$&')`. */
  function Escape(p: string): string
    decreases |p|
  {
    if p == [] then []
    else (if IsEscaped(p[0]) then ['\\', p[0]] else [p[0]]) + Escape(p[1..])
  }

  /** The wildcard rewrite: every backslash followed by a star becomes `.*`. */
  function RewriteWildcards(s: string): string
    decreases |s|
  {
    if |s| >= 2 && s[0] == '\\' && s[1] == '*' then ".*" + RewriteWildcards(s[2..])
    else if s == [] then []
    else [s[0]] + RewriteWildcards(s[1..])
  }

  predicate IsWordChar(c: char)
  {
    'A' <= c <= 'Z' || 'a' <= c <= 'z' || '0' <= c <= '9' || c == '_'
  }

  /** Length of the longest prefix of `s` made of `[A-Za-z0-9_]`. */
  function WordRun(s: string): (n: nat)
    ensures n <= |s|
    decreases |s|
  {
    if s != [] && IsWordChar(s[0]) then 1 + WordRun(s[1..]) else 0
  }

  /** `.replace(/\\:([A-Za-z0-9_]+)/g, '(?<$1>[^/]+)')`. */
  function RewriteNamed(s: string): string
    decreases |s|
  {
    if |s| >= 2 && s[0] == '\\' && s[1] == ':' && WordRun(s[2..]) > 0 then
      var n := WordRun(s[2..]);
      "(?<" + s[2..2 + n] + ">[^/]+)" + RewriteNamed(s[2 + n..])
    else if s == [] then []
    else [s[0]] + RewriteNamed(s[1..])
  }

  /** One element of a compiled pattern: a literal character, repeated zero
      or more times when starred. */
  datatype Atom = Atom(c: char, starred: bool)

  /** The regular-expression constructor on the only sources a backslash-free
      pattern can produce: a backslash escapes the next character, `*`
      repeats the atom before it, and any other character is a literal. A
      leading `*`, or a `*` after a starred atom, is "nothing to repeat":
      the constructor throws. */
  function ParseSource(s: string, acc: seq<Atom>): Option<seq<Atom>>
    decreases |s|
  {
    if s == [] then Some(acc)
    else if s[0] == '\\' && |s| >= 2 then ParseSource(s[2..], acc + [Atom(s[1], false)])
    else if s[0] == '*' then
      if acc == [] || acc[|acc| - 1].starred then None
      else ParseSource(s[1..], acc[..|acc| - 1] + [Atom(acc[|acc| - 1].c, true)])
    else ParseSource(s[1..], acc + [Atom(s[0], false)])
  }

  /** `compileRoute(routePath)`, for patterns without a backslash; `None` is
      the constructor's syntax error. The `^…$` anchors are the full-string
      matching of Accepts. */
  function Compile(p: string): (r: Option<seq<Atom>>)
    requires '\\' !in p
    ensures r == PatternAtoms(p, [])
  {
    RewritesNeverFire(p);
    ParseEscaped(p, []);
    ParseSource(RewriteNamed(RewriteWildcards(Escape(p))), [])
  }

  /** Whether an anchored chain of atoms matches the whole of `s`. */
  predicate Accepts(atoms: seq<Atom>, s: string)
    decreases |atoms|, |s|
  {
    if atoms == [] then s == []
    else if !atoms[0].starred then s != [] && s[0] == atoms[0].c && Accepts(atoms[1..], s[1..])
    else Accepts(atoms[1..], s) || (s != [] && s[0] == atoms[0].c && Accepts(atoms, s[1..]))
  }

  // The compiler, stated on the pattern itself.

  /** The atoms a pattern denotes, read straight off its characters. */
  function PatternAtoms(p: string, acc: seq<Atom>): Option<seq<Atom>>
    decreases |p|
  {
    if p == [] then Some(acc)
    else if p[0] == '*' then
      if acc == [] || acc[|acc| - 1].starred then None
      else PatternAtoms(p[1..], acc[..|acc| - 1] + [Atom(acc[|acc| - 1].c, true)])
    else PatternAtoms(p[1..], acc + [Atom(p[0], false)])
  }

  /** Escaping a backslash-free pattern puts a backslash only before an
      escaped character, which is neither `*` nor `:`: the code's wildcard
      and named-segment rewrites find nothing to rewrite. */
  lemma {:induction false} RewritesNeverFire(p: string)
    requires '\\' !in p
    ensures RewriteWildcards(Escape(p)) == Escape(p)
    ensures RewriteNamed(Escape(p)) == Escape(p)
    decreases |p|
  {
    if p != [] {
      RewritesNeverFire(p[1..]);
      var rest := Escape(p[1..]);
      if IsEscaped(p[0]) {
        assert Escape(p) == ['\\', p[0]] + rest;
        assert (['\\', p[0]] + rest)[1..] == [p[0]] + rest;
        assert ([p[0]] + rest)[1..] == rest;
      } else {
        assert Escape(p) == [p[0]] + rest;
        assert ([p[0]] + rest)[1..] == rest;
      }
    }
  }

  /** Parsing the escaped source reads the pattern's own characters. */
  lemma {:induction false} ParseEscaped(p: string, acc: seq<Atom>)
    requires '\\' !in p
    ensures ParseSource(Escape(p), acc) == PatternAtoms(p, acc)
    decreases |p|
  {
    if p != [] {
      var rest := Escape(p[1..]);
      if IsEscaped(p[0]) {
        assert Escape(p) == ['\\', p[0]] + rest;
        assert (['\\', p[0]] + rest)[2..] == rest;
        ParseEscaped(p[1..], acc + [Atom(p[0], false)]);
      } else {
        assert Escape(p) == [p[0]] + rest;
        assert ([p[0]] + rest)[1..] == rest;
        if p[0] == '*' {
          if !(acc == [] || acc[|acc| - 1].starred) {
            ParseEscaped(p[1..], acc[..|acc| - 1] + [Atom(acc[|acc| - 1].c, true)]);
          }
        } else {
          ParseEscaped(p[1..], acc + [Atom(p[0], false)]);
        }
      }
    }
  }

  /** The unstarred atoms spelling `p`. */
  function Literal(p: string): (atoms: seq<Atom>)
    ensures |atoms| == |p|
    ensures forall i :: 0 <= i < |p| ==> atoms[i] == Atom(p[i], false)
  {
    seq(|p|, i requires 0 <= i < |p| => Atom(p[i], false))
  }

  lemma {:induction false} PatternAtomsOfLiteral(p: string, acc: seq<Atom>)
    requires '*' !in p
    ensures PatternAtoms(p, acc) == Some(acc + Literal(p))
    decreases |p|
  {
    if p != [] {
      var x := Atom(p[0], false);
      assert p[0] != '*';
      assert PatternAtoms(p, acc) == PatternAtoms(p[1..], acc + [x]);
      PatternAtomsOfLiteral(p[1..], acc + [x]);
      LiteralCons(p, acc);
    } else {
      assert acc + Literal(p) == acc;
    }
  }

  /** Moving the first character of a literal into the accumulator. */
  lemma LiteralCons(p: string, acc: seq<Atom>)
    requires p != []
    ensures acc + [Atom(p[0], false)] + Literal(p[1..]) == acc + Literal(p)
  {
    var l, l1 := Literal(p), Literal(p[1..]);
    assert l == [Atom(p[0], false)] + l1 by {
      forall i | 0 <= i < |l| ensures l[i] == ([Atom(p[0], false)] + l1)[i] {
        if i > 0 { assert l1[i - 1] == Atom(p[i], false); }
      }
    }
  }

  lemma {:induction false} PatternAtomsAfterLiteral(p: string, q: string, acc: seq<Atom>)
    requires '*' !in p
    ensures PatternAtoms(p + q, acc) == PatternAtoms(q, acc + Literal(p))
    decreases |p|
  {
    if p == [] {
      assert p + q == q;
      assert acc + Literal(p) == acc;
    } else {
      var pq := p + q;
      var acc1 := acc + [Atom(p[0], false)];
      assert pq[0] == p[0] && pq[1..] == p[1..] + q;
      assert PatternAtoms(pq, acc) == PatternAtoms(p[1..] + q, acc1);
      PatternAtomsAfterLiteral(p[1..], q, acc1);
      LiteralCons(p, acc);
    }
  }

  lemma {:induction false} LiteralAccepts(p: string, s: string)
    ensures Accepts(Literal(p), s) <==> s == p
    decreases |p|
  {
    if p != [] {
      assert Literal(p)[1..] == Literal(p[1..]);
      if s != [] {
        LiteralAccepts(p[1..], s[1..]);
        if s[0] == p[0] && s[1..] == p[1..] {
          assert s == [s[0]] + s[1..] && p == [p[0]] + p[1..];
        }
      }
    }
  }

  /** A pattern with no `*` and no backslash matches exactly itself: named
      segments such as `:id` are literal text. */
  lemma LiteralPatternMatchesItself(p: string, s: string)
    requires '\\' !in p && '*' !in p
    ensures Compile(p) == Some(Literal(p))
    ensures Accepts(Literal(p), s) <==> s == p
  {
    PatternAtomsOfLiteral(p, []);
    assert [] + Literal(p) == Literal(p);
    LiteralAccepts(p, s);
  }

  /** `/todos/:id` compiles but does not match `/todos/42`. */
  lemma NamedSegmentIsLiteral()
    ensures Compile("/todos/:id") == Some(Literal("/todos/:id"))
    ensures !Accepts(Literal("/todos/:id"), "/todos/42")
    ensures Accepts(Literal("/todos/:id"), "/todos/:id")
  {
    LiteralPatternMatchesItself("/todos/:id", "/todos/42");
    LiteralPatternMatchesItself("/todos/:id", "/todos/:id");
  }

  /** A `*` at the start has nothing to repeat: the constructor throws. */
  lemma LeadingStarThrows(p: string)
    requires '\\' !in p && p != [] && p[0] == '*'
    ensures Compile(p).None?
  {
  }

  lemma {:induction false} DoubleStarFails(p: string, acc: seq<Atom>, i: nat)
    requires i + 1 < |p| && p[i] == '*' && p[i + 1] == '*'
    ensures PatternAtoms(p, acc).None?
    decreases |p|
  {
    if i > 0 {
      if p[0] == '*' {
        if !(acc == [] || acc[|acc| - 1].starred) {
          DoubleStarFails(p[1..], acc[..|acc| - 1] + [Atom(acc[|acc| - 1].c, true)], i - 1);
        }
      } else {
        DoubleStarFails(p[1..], acc + [Atom(p[0], false)], i - 1);
      }
    } else {
      var p1 := p[1..];
      assert p1[0] == '*';
      if !(acc == [] || acc[|acc| - 1].starred) {
        var acc1 := acc[..|acc| - 1] + [Atom(acc[|acc| - 1].c, true)];
        assert acc1[|acc1| - 1].starred;
      }
    }
  }

  /** Two adjacent stars also make the constructor throw. */
  lemma DoubleStarThrows(p: string, i: nat)
    requires '\\' !in p && i + 1 < |p| && p[i] == '*' && p[i + 1] == '*'
    ensures Compile(p).None?
  {
    DoubleStarFails(p, [], i);
  }

  /** A starred atom followed by nothing matches any run of its character. */
  lemma {:induction false} StarAcceptsRun(c: char, k: nat)
    ensures Accepts([Atom(c, true)], seq(k, _ => c))
    decreases k
  {
    if k > 0 {
      StarAcceptsRun(c, k - 1);
      assert seq(k, _ => c)[1..] == seq(k - 1, _ => c);
    } else {
      assert Accepts([Atom(c, true)][1..], []);
    }
  }

  lemma {:induction false} LiteralThenAccepts(p: string, rest: seq<Atom>, s: string)
    ensures Accepts(Literal(p) + rest, p + s) <==> Accepts(rest, s)
    decreases |p|
  {
    if p != [] {
      assert (Literal(p) + rest)[0] == Atom(p[0], false);
      assert (p + s)[0] == p[0];
      assert (Literal(p) + rest)[1..] == Literal(p[1..]) + rest;
      assert (p + s)[1..] == p[1..] + s;
      LiteralThenAccepts(p[1..], rest, s);
    } else {
      assert Literal(p) + rest == rest && p + s == s;
    }
  }

  /** The pattern `/a/` plus a star compiles to `/`, `a`, then a starred `/`: it accepts `/a`
      followed by any number of slashes. */
  lemma TrailingStarExample(k: nat)
    ensures Compile("/a/*") == Some(Literal("/a") + [Atom('/', true)])
    ensures Accepts(Literal("/a") + [Atom('/', true)], "/a" + seq(k, _ => '/'))
  {
    TrailingStarCompiles();
    LiteralThenAccepts("/a", [Atom('/', true)], seq(k, _ => '/'));
    StarAcceptsRun('/', k);
  }

  lemma TrailingStarCompiles()
    ensures Compile("/a/*") == Some(Literal("/a") + [Atom('/', true)])
  {
    var p := "/a/*";
    var tail := ['/', '*'];
    assert p == "/a" + tail by {
      assert |p| == |"/a" + tail|;
      forall i | 0 <= i < |p| ensures p[i] == ("/a" + tail)[i] { }
    }
    PatternAtomsAfterLiteral("/a", tail, []);
    var lit := Literal("/a");
    assert [] + lit == lit;
    assert tail[1..] == ['*'] && ['*'][1..] == [];
    assert PatternAtoms(tail, lit) == PatternAtoms(['*'], lit + [Atom('/', false)]);
    var acc := lit + [Atom('/', false)];
    assert acc[..|acc| - 1] == lit;
    assert PatternAtoms(['*'], acc) == PatternAtoms([], lit + [Atom('/', true)]);
  }

  // Matching over the route table.

  /** The matching-relevant part of a registered route: its key, the derived
      dynamic flag and compiled matcher, and the rest of its configuration. */
  datatype RouteEntry<C> = RouteEntry(path: string, isDynamic: bool, compiled: Option<seq<Atom>>, config: C)

  datatype MatchResult<C> = MatchResult(route: RouteEntry<C>, params: map<string, string>)

  /** The table is a map: no key occurs twice. */
  predicate UniqueKeys<C>(table: seq<RouteEntry<C>>)
  {
    forall i, j :: 0 <= i < j < |table| ==> table[i].path != table[j].path
  }

  /** Position of the entry whose key is `path`, or |table|. */
  function KeyIndex<C>(table: seq<RouteEntry<C>>, path: string): (i: nat)
    ensures i <= |table|
    ensures i < |table| ==> table[i].path == path
    ensures forall j :: 0 <= j < i ==> table[j].path != path
    decreases |table|
  {
    if table == [] then 0 else if table[0].path == path then 0 else 1 + KeyIndex(table[1..], path)
  }

  /** `matchExactRoute`. */
  function MatchExact<C>(table: seq<RouteEntry<C>>, path: string): Option<MatchResult<C>>
  {
    var i := KeyIndex(table, path);
    if i == |table| then None
    else if table[i].isDynamic then None
    else Some(MatchResult(table[i], map[]))
  }

  /** Whether the dynamic scan stops at this entry. */
  predicate DynamicHit<C>(e: RouteEntry<C>, path: string)
  {
    e.isDynamic && e.compiled.Some? && Accepts(e.compiled.value, path)
  }

  /** `matchDynamicRoute`, as a specification: the first dynamic entry, in
      insertion order, whose matcher accepts the path. The compiled
      expression has no named groups, so `match.groups || {}` is `{}`. */
  function FirstDynamic<C>(table: seq<RouteEntry<C>>, path: string): Option<MatchResult<C>>
    decreases |table|
  {
    if table == [] then None
    else if DynamicHit(table[0], path) then Some(MatchResult(table[0], map[]))
    else FirstDynamic(table[1..], path)
  }

  /** `match(path)`: the exact result if there is one, else the dynamic scan. */
  function Match<C>(table: seq<RouteEntry<C>>, path: string): (r: Option<MatchResult<C>>)
    ensures r.None? <==> MatchExact(table, path).None? && forall j :: 0 <= j < |table| ==> !DynamicHit(table[j], path)
    ensures r.Some? ==>
              r.value.params == map[] &&
              exists i :: 0 <= i < |table| && r.value.route == table[i] &&
                          ((table[i].path == path && !table[i].isDynamic) || DynamicHit(table[i], path))
  {
    FirstDynamicSound(table, path);
    var exact := MatchExact(table, path);
    if exact.Some? then exact else FirstDynamic(table, path)
  }

  /** The dynamic scan as the code runs it: a loop with an early return. */
  method MatchDynamicRoute<C>(table: seq<RouteEntry<C>>, path: string) returns (r: Option<MatchResult<C>>)
    ensures r == FirstDynamic(table, path)
  {
    var i := 0;
    while i < |table|
      invariant 0 <= i <= |table|
      invariant FirstDynamic(table, path) == FirstDynamic(table[i..], path)
    {
      var e := table[i];
      assert table[i..][1..] == table[i + 1..];
      if !e.isDynamic || e.compiled.None? {
        i := i + 1;
        continue;
      }
      if Accepts(e.compiled.value, path) {
        return Some(MatchResult(e, map[]));
      }
      i := i + 1;
    }
    return None;
  }

  /** `createRouteMatchers(routesMap).match(path)`. */
  method MatchRoute<C>(table: seq<RouteEntry<C>>, path: string) returns (r: Option<MatchResult<C>>)
    ensures r == Match(table, path)
  {
    r := MatchExact(table, path);
    if r.None? {
      r := MatchDynamicRoute(table, path);
    }
  }

  // Properties of matching.

  /** An exact, non-dynamic route wins wherever it sits in the table. */
  lemma ExactRouteWins<C>(table: seq<RouteEntry<C>>, path: string, i: nat)
    requires UniqueKeys(table)
    requires i < |table| && table[i].path == path && !table[i].isDynamic
    ensures Match(table, path) == Some(MatchResult(table[i], map[]))
  {
  }

  /** A registered key that is itself dynamic is not found by exact lookup. */
  lemma DynamicKeyNotExact<C>(table: seq<RouteEntry<C>>, path: string, i: nat)
    requires UniqueKeys(table)
    requires i < |table| && table[i].path == path && table[i].isDynamic
    ensures MatchExact(table, path).None?
    ensures Match(table, path) == FirstDynamic(table, path)
  {
  }

  /** The dynamic scan returns entry `i` exactly when it is a hit and no
      earlier entry is. */
  lemma {:induction false} FirstDynamicIsFirstHit<C>(table: seq<RouteEntry<C>>, path: string, i: nat)
    requires i < |table|
    ensures DynamicHit(table[i], path) && (forall j :: 0 <= j < i ==> !DynamicHit(table[j], path)) ==>
              FirstDynamic(table, path) == Some(MatchResult(table[i], map[]))
    decreases i
  {
    if i > 0 && DynamicHit(table[i], path) && forall j :: 0 <= j < i ==> !DynamicHit(table[j], path) {
      assert !DynamicHit(table[0], path);
      FirstDynamicIsFirstHit(table[1..], path, i - 1);
    }
  }

  /** Whatever the dynamic scan returns is the first hit of the table. */
  lemma {:induction false} FirstDynamicSound<C>(table: seq<RouteEntry<C>>, path: string)
    ensures FirstDynamic(table, path).None? <==> forall j :: 0 <= j < |table| ==> !DynamicHit(table[j], path)
    ensures FirstDynamic(table, path).Some? ==>
              FirstDynamic(table, path).value.params == map[] &&
              exists i :: 0 <= i < |table| && FirstDynamic(table, path).value.route == table[i] &&
                          DynamicHit(table[i], path) &&
                          forall j :: 0 <= j < i ==> !DynamicHit(table[j], path)
    decreases |table|
  {
    if table != [] && !DynamicHit(table[0], path) {
      FirstDynamicSound(table[1..], path);
      if FirstDynamic(table[1..], path).Some? {
        var i :| 0 <= i < |table[1..]| && FirstDynamic(table[1..], path).value.route == table[1..][i] &&
                 DynamicHit(table[1..][i], path) &&
                 forall j :: 0 <= j < i ==> !DynamicHit(table[1..][j], path);
        assert table[i + 1] == table[1..][i];
        forall j | 0 <= j < i + 1 ensures !DynamicHit(table[j], path) {
          if j > 0 { assert table[j] == table[1..][j - 1]; }
        }
      }
      forall j | 0 <= j < |table[1..]| ensures table[1..][j] == table[j + 1] { }
    }
  }
}
