/** The URL fragment parser: a fragment becomes a path and a flat query map.
    Percent-decoding and `+`-as-space are not modelled: a query is split on
    `&` and on the first `=` of each piece. */
module HashParser {
  import opened Js

  datatype ParsedHash = ParsedHash(path: string, query: map<string, string>)

  /** `s.split(sep)`: the pieces between occurrences of `sep`, in order. */
  function Split(s: string, sep: char): (pieces: seq<string>)
    ensures |pieces| >= 1
    ensures forall k :: 0 <= k < |pieces| ==> sep !in pieces[k]
    decreases |s|
  {
    var i := IndexOf(s, sep);
    if i == |s| then [s] else [s[..i]] + Split(s[i + 1..], sep)
  }

  /** `pieces.join(sep)`: the inverse of Split. */
  function Join(pieces: seq<string>, sep: char): string
    requires |pieces| >= 1
    decreases |pieces|
  {
    if |pieces| == 1 then pieces[0] else pieces[0] + [sep] + Join(pieces[1..], sep)
  }

  lemma {:induction false} JoinSplit(s: string, sep: char)
    ensures Join(Split(s, sep), sep) == s
    decreases |s|
  {
    var i := IndexOf(s, sep);
    if i < |s| {
      var rest := s[i + 1..];
      var pieces := Split(s, sep);
      assert pieces == [s[..i]] + Split(rest, sep);
      assert pieces[0] == s[..i] && pieces[1..] == Split(rest, sep);
      JoinSplit(rest, sep);
      assert Join(pieces, sep) == s[..i] + [sep] + rest;
      assert s == s[..i] + [sep] + rest;
    } else {
      assert Split(s, sep) == [s];
    }
  }

  /** Splitting the join of separator-free pieces gives the pieces back. */
  lemma {:induction false} SplitJoin(pieces: seq<string>, sep: char)
    requires |pieces| >= 1
    requires forall k :: 0 <= k < |pieces| ==> sep !in pieces[k]
    ensures Split(Join(pieces, sep), sep) == pieces
    decreases |pieces|
  {
    if |pieces| > 1 {
      var s := Join(pieces, sep);
      assert s == pieces[0] + [sep] + Join(pieces[1..], sep);
      IndexOfPrefix(pieces[0], sep, Join(pieces[1..], sep));
      assert s[|pieces[0]| + 1..] == Join(pieces[1..], sep);
      SplitJoin(pieces[1..], sep);
    } else {
      assert IndexOf(pieces[0], sep) == |pieces[0]|;
    }
  }

  lemma {:induction false} IndexOfPrefix(a: string, sep: char, b: string)
    requires sep !in a
    ensures IndexOf(a + [sep] + b, sep) == |a|
    ensures (a + [sep] + b)[..|a|] == a
    decreases |a|
  {
    if a != [] {
      assert (a + [sep] + b)[1..] == a[1..] + [sep] + b;
      IndexOfPrefix(a[1..], sep, b);
    }
  }

  /** The first piece is the text before the first separator. */
  lemma SplitHead(s: string, sep: char)
    ensures Split(s, sep)[0] == s[..IndexOf(s, sep)]
  {
    var i := IndexOf(s, sep);
    if i == |s| { assert s[..i] == s; }
  }

  /** The second piece, when there is one, is the text between the first and
      the second separator (or the end). */
  lemma SplitSecond(s: string, sep: char)
    ensures |Split(s, sep)| > 1 <==> sep in s
    ensures sep in s ==>
      var rest := s[IndexOf(s, sep) + 1..];
      Split(s, sep)[1] == rest[..IndexOf(rest, sep)]
  {
    var i := IndexOf(s, sep);
    if i < |s| {
      SplitHead(s[i + 1..], sep);
    }
  }

  /** `(hashString || '').slice(1) || '/'`: the first character is dropped,
      whatever it is, and an empty remainder becomes `/`. */
  function Body(raw: Option<string>): string
  {
    var s := if raw.Some? then raw.value else "";
    if |s| <= 1 then "/" else s[1..]
  }

  /** `pathPart || '/'` where `[pathPart, queryPart] = hash.split('?')`. */
  function PathOf(raw: Option<string>): string
  {
    var pathPart := Split(Body(raw), '?')[0];
    if pathPart == "" then "/" else pathPart
  }

  /** The query source: the second piece of the split, absent without a `?`. */
  function QueryPart(raw: Option<string>): Option<string>
  {
    var pieces := Split(Body(raw), '?');
    if |pieces| > 1 then Some(pieces[1]) else None
  }

  /** One `name=value` piece of a query; a piece without `=` has value "". */
  function ParsePair(piece: string): (string, string)
  {
    var i := IndexOf(piece, '=');
    if i == |piece| then (piece, "") else (piece[..i], piece[i + 1..])
  }

  /** The pairs of `&`-separated pieces, skipping empty pieces. */
  function PairsOfPieces(pieces: seq<string>): Pairs
    decreases |pieces|
  {
    if pieces == [] then []
    else if pieces[0] == "" then PairsOfPieces(pieces[1..])
    else [ParsePair(pieces[0])] + PairsOfPieces(pieces[1..])
  }

  /** The pairs the query iteration visits, in order (`if (queryPart)` guards
      both a missing and an empty query part). */
  function QueryPairs(raw: Option<string>): Pairs
  {
    match QueryPart(raw)
    case None => []
    case Some(q) => if q == "" then [] else PairsOfPieces(Split(q, '&'))
  }

  /** The one key that assigning a string into a fresh object (`{}`) does not
      create: it names the object's prototype, and a string is not one. */
  const ProtoKey := "__proto__"

  /** The map that assigning each pair in order produces; a pair whose key is
      `ProtoKey` is skipped. */
  function LastWins(pairs: Pairs): map<string, string>
    decreases |pairs|
  {
    if pairs == [] then map[]
    else if pairs[|pairs| - 1].0 == ProtoKey then LastWins(pairs[..|pairs| - 1])
    else LastWins(pairs[..|pairs| - 1])[pairs[|pairs| - 1].0 := pairs[|pairs| - 1].1]
  }

  /** A key other than `ProtoKey` is present exactly when some pair carries
      it, and it maps to the value of its last occurrence; `ProtoKey` is never
      present. */
  lemma {:induction false} LastWinsLookup(pairs: Pairs, k: string)
    ensures k in LastWins(pairs) <==> k != ProtoKey && exists j :: 0 <= j < |pairs| && pairs[j].0 == k
    ensures forall j :: 0 <= j < |pairs| && pairs[j].0 == k && k != ProtoKey &&
                        (forall j' :: j < j' < |pairs| ==> pairs[j'].0 != k) ==>
                        k in LastWins(pairs) && LastWins(pairs)[k] == pairs[j].1
    decreases |pairs|
  {
    if pairs != [] {
      var init := pairs[..|pairs| - 1];
      LastWinsLookup(init, k);
      forall j | 0 <= j < |init| ensures init[j] == pairs[j] { }
    }
  }

  /** The query map of a fragment. */
  function QueryOf(raw: Option<string>): map<string, string>
  {
    LastWins(QueryPairs(raw))
  }

  /** Assign query pairs into a fresh object, one `forEach` step at a time;
      the assignment to `ProtoKey` leaves the object as it was. */
  method CollectParams(pairs: Pairs) returns (params: map<string, string>)
    ensures params == LastWins(pairs)
  {
    params := map[];
    var i := 0;
    while i < |pairs|
      invariant 0 <= i <= |pairs|
      invariant params == LastWins(pairs[..i])
    {
      var (key, value) := pairs[i];
      assert pairs[..i + 1][..i] == pairs[..i];
      if key != ProtoKey {
        params := params[key := value];
      }
      i := i + 1;
    }
    assert pairs[..|pairs|] == pairs;
  }

  /** `parseHash(hashString)`; `None` stands for a missing argument. */
  method ParseHash(raw: Option<string>) returns (r: ParsedHash)
    ensures r.path == PathOf(raw) && r.query == QueryOf(raw)
  {
    var queryParams: map<string, string> := map[];
    var queryPart := QueryPart(raw);
    if queryPart.Some? && queryPart.value != "" {
      queryParams := CollectParams(QueryPairs(raw));
    }
    r := ParsedHash(PathOf(raw), queryParams);
  }

  // Properties of the parse.

  /** A missing, empty or one-character fragment yields `/` and no query. */
  lemma EmptyFragment(raw: Option<string>)
    requires raw.None? || |raw.value| <= 1
    ensures PathOf(raw) == "/" && QueryOf(raw) == map[]
  {
    assert Body(raw) == "/";
    assert Split("/", '?') == ["/"];
  }

  /** The first character is dropped unconditionally: two fragments that differ
      only in it parse alike. */
  lemma FirstCharIgnored(s: string, c: char, d: char)
    ensures PathOf(Some([c] + s)) == PathOf(Some([d] + s))
    ensures QueryOf(Some([c] + s)) == QueryOf(Some([d] + s))
  {
    assert ([c] + s)[1..] == s == ([d] + s)[1..];
  }

  /** The path is never empty and never holds a `?`; it is the text of the
      fragment body before the first `?`, or `/` when that text is empty. */
  lemma PathBeforeFirstQuestionMark(raw: Option<string>)
    ensures PathOf(raw) != "" && '?' !in PathOf(raw)
    ensures var h := Body(raw); var prefix := h[..IndexOf(h, '?')];
      PathOf(raw) == if prefix == "" then "/" else prefix
  {
    SplitHead(Body(raw), '?');
  }

  /** The query source is exactly the text between the first and the second
      `?`; anything after a second `?` is ignored. */
  lemma QueryBetweenQuestionMarks(raw: Option<string>)
    ensures var h := Body(raw);
      QueryPart(raw) ==
        if '?' in h then
          var rest := h[IndexOf(h, '?') + 1..];
          Some(rest[..IndexOf(rest, '?')])
        else None
  {
    var h := Body(raw);
    var pieces := Split(h, '?');
    SplitSecond(h, '?');
    assert QueryPart(raw) == if |pieces| > 1 then Some(pieces[1]) else None;
  }

  /** Text after a second `?` never influences the query. */
  lemma TailAfterSecondQuestionMarkIgnored(c: char, p: string, q: string, tail: string)
    requires '?' !in p && '?' !in q
    ensures QueryOf(Some([c] + p + "?" + q + "?" + tail)) == QueryOf(Some([c] + p + "?" + q))
    ensures PathOf(Some([c] + p + "?" + q + "?" + tail)) == PathOf(Some([c] + p + "?" + q))
  {
    var r1, r2 := Some([c] + p + "?" + q + "?" + tail), Some([c] + p + "?" + q);
    var h1 := p + ['?'] + (q + ['?'] + tail);
    var h2 := p + ['?'] + q;
    LongBody(c, p, q, tail, h1);
    ShortBody(c, p, q, h2);
    SplitCons(p, '?', q + ['?'] + tail);
    SplitCons(q, '?', tail);
    SplitCons(p, '?', q);
    SplitNone(q, '?');
    SameLeadingPieces(r1, r2);
  }

  /** Fragments whose bodies agree on the first two `?`-pieces parse alike. */
  lemma SameLeadingPieces(r1: Option<string>, r2: Option<string>)
    requires Split(Body(r1), '?')[0] == Split(Body(r2), '?')[0]
    requires |Split(Body(r1), '?')| > 1 && |Split(Body(r2), '?')| > 1
    requires Split(Body(r1), '?')[1] == Split(Body(r2), '?')[1]
    ensures QueryOf(r1) == QueryOf(r2) && PathOf(r1) == PathOf(r2)
  {
    var pieces1, pieces2 := Split(Body(r1), '?'), Split(Body(r2), '?');
    assert QueryPart(r1) == Some(pieces1[1]);
    assert QueryPart(r2) == Some(pieces2[1]);
    assert QueryPairs(r1) == QueryPairs(r2);
  }

  lemma LongBody(c: char, p: string, q: string, tail: string, h: string)
    requires h == p + ['?'] + (q + ['?'] + tail)
    ensures Body(Some([c] + p + "?" + q + "?" + tail)) == h
  {
    assert [c] + p + "?" + q + "?" + tail == [c] + h;
    assert ([c] + h)[1..] == h;
  }

  lemma ShortBody(c: char, p: string, q: string, h: string)
    requires h == p + ['?'] + q
    ensures Body(Some([c] + p + "?" + q)) == h
  {
    assert [c] + p + "?" + q == [c] + h;
    assert ([c] + h)[1..] == h;
  }

  lemma SplitCons(a: string, sep: char, b: string)
    requires sep !in a
    ensures Split(a + [sep] + b, sep) == [a] + Split(b, sep)
  {
    IndexOfPrefix(a, sep, b);
    assert (a + [sep] + b)[|a| + 1..] == b;
  }

  lemma SplitNone(a: string, sep: char)
    requires sep !in a
    ensures Split(a, sep) == [a]
  {
    assert IndexOf(a, sep) == |a|;
  }

  /** With no `?`, or an empty query part, the query map is empty. */
  lemma NoQueryNoParams(raw: Option<string>)
    requires QueryPart(raw).None? || QueryPart(raw) == Some("")
    ensures QueryOf(raw) == map[]
  {
  }

  /** For a repeated key the last occurrence wins; `ProtoKey` never makes it
      into the query map. */
  lemma RepeatedKeyLastWins(raw: Option<string>, k: string, j: nat)
    requires j < |QueryPairs(raw)| && QueryPairs(raw)[j].0 == k
    requires forall j' :: j < j' < |QueryPairs(raw)| ==> QueryPairs(raw)[j'].0 != k
    ensures k != ProtoKey ==> k in QueryOf(raw) && QueryOf(raw)[k] == QueryPairs(raw)[j].1
    ensures k == ProtoKey ==> k !in QueryOf(raw)
  {
    LastWinsLookup(QueryPairs(raw), k);
  }

  /** A fragment `<c><path>?<q>` with `?`-free, non-empty path has that path
      and query source `q`; without the `?` part the query source is absent. */
  lemma ShapeWithQuery(c: char, path: string, q: string)
    requires path != "" && '?' !in path && '?' !in q
    ensures PathOf(Some([c] + path + ['?'] + q)) == path
    ensures QueryPart(Some([c] + path + ['?'] + q)) == Some(q)
  {
    var h := path + ['?'] + q;
    assert Body(Some([c] + path + ['?'] + q)) == h by {
      assert [c] + path + ['?'] + q == [c] + h;
    }
    SplitCons(path, '?', q);
    SplitNone(q, '?');
  }

  lemma ShapeWithoutQuery(c: char, path: string)
    requires path != "" && '?' !in path
    ensures PathOf(Some([c] + path)) == path
    ensures QueryPart(Some([c] + path)).None?
  {
    assert ([c] + path)[1..] == path;
    SplitNone(path, '?');
  }

  /** The worked example `#/todos/42?x=1`. */
  lemma TodosExample(raw: Option<string>)
    requires raw == Some("#/todos/42?x=1")
    ensures PathOf(raw) == "/todos/42"
    ensures QueryOf(raw) == map["x" := "1"]
  {
    ExampleText(raw.value);
    ShapeWithQuery('#', "/todos/42", "x=1");
    ExampleQuery(raw);
  }

  lemma ExampleText(s: string)
    requires s == "#/todos/42?x=1"
    ensures s == ['#'] + "/todos/42" + ['?'] + "x=1"
  {
    var t := ['#'] + "/todos/42" + ['?'] + "x=1";
    assert |s| == |t|;
    forall i | 0 <= i < |t| ensures s[i] == t[i] { }
  }

  lemma ExampleQuery(raw: Option<string>)
    requires QueryPart(raw) == Some("x=1")
    ensures QueryOf(raw) == map["x" := "1"]
  {
    ExamplePairs();
    assert QueryPairs(raw) == PairsOfPieces(Split("x=1", '&'));
    var pairs := [("x", "1")];
    assert pairs[..0] == [];
    assert LastWins(pairs) == map["x" := "1"];
  }

  lemma ExamplePairs()
    ensures PairsOfPieces(Split("x=1", '&')) == [("x", "1")]
  {
    var q := "x=1";
    SplitNone(q, '&');
    ExamplePair();
    assert [q][1..] == [];
  }

  lemma ExamplePair()
    ensures ParsePair("x=1") == ("x", "1")
  {
    var q := "x=1";
    assert q == "x" + ['='] + "1";
    IndexOfPrefix("x", '=', "1");
  }
}
