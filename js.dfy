/** Values of the host language as far as the framework inspects them: optional
    values, results of operations that may throw, and the loose truthiness and
    string conversion the code relies on. */
module Js {

  datatype Option<+T> = None | Some(value: T)

  /** The outcome of an operation that either returns a value or throws. */
  datatype Result<+T, +E> = Ok(value: T) | Err(error: E)

  /** A primitive value. Numbers are integers: NaN, infinities and fractions are
      not part of this model. */
  datatype Value = Undefined | Null | Bool(b: bool) | Number(n: int) | Text(s: string)

  /** An ordered list of string key/value pairs, as an object's entries or a
      query string's parameters. */
  type Pairs = seq<(string, string)>

  /** JavaScript truthiness: `undefined`, `null`, `false`, `0` and `""` are falsy. */
  function Truthy(v: Value): (b: bool)
    ensures !b <==> v == Undefined || v == Null || v == Bool(false) || v == Number(0) || v == Text("")
  {
    match v
    case Undefined => false
    case Null => false
    case Bool(b) => b
    case Number(n) => n != 0
    case Text(s) => s != ""
  }

  function DigitChar(d: nat): char
    requires d < 10
  {
    "0123456789"[d]
  }

  /** Decimal rendering of a natural number, most significant digit first. */
  function NatToString(n: nat): (s: string)
    ensures |s| >= 1
    ensures forall i :: 0 <= i < |s| ==> '0' <= s[i] <= '9'
    decreases n
  {
    if n < 10 then [DigitChar(n)] else NatToString(n / 10) + [DigitChar(n % 10)]
  }

  /** `String(v)` for a primitive value. */
  function ToText(v: Value): string
  {
    match v
    case Undefined => "undefined"
    case Null => "null"
    case Bool(b) => if b then "true" else "false"
    case Number(n) => if n < 0 then "-" + NatToString(-n) else NatToString(n)
    case Text(s) => s
  }

  /** A truthy value never renders as the empty string. */
  lemma TruthyToTextNonEmpty(v: Value)
    requires Truthy(v)
    ensures ToText(v) != ""
  {
  }

  /** Index of the first occurrence of `x` in `s`, or |s| when absent. */
  function IndexOf<T(==)>(s: seq<T>, x: T): (i: nat)
    ensures i <= |s|
    ensures i < |s| ==> s[i] == x
    ensures forall j :: 0 <= j < i ==> s[j] != x
  {
    if s == [] then 0 else if s[0] == x then 0 else 1 + IndexOf(s[1..], x)
  }

  /** `splice(indexOf(x), 1)` guarded by `indexOf(x) !== -1`: drop the first
      occurrence of `x`, if any. */
  function RemoveFirst<T(==)>(s: seq<T>, x: T): (r: seq<T>)
    ensures x !in s ==> r == s
    ensures x in s ==> |r| == |s| - 1
    ensures multiset(r) == multiset(s) - multiset{x}
  {
    var i := IndexOf(s, x);
    if i == |s| then s
    else
      assert s == s[..i] + [x] + s[i + 1..];
      s[..i] + s[i + 1..]
  }

  /** Removing an element appended to a list that lacks it gives the list back. */
  lemma RemoveFirstAppended<T>(s: seq<T>, x: T)
    requires x !in s
    ensures RemoveFirst(s + [x], x) == s
  {
    var t := s + [x];
    assert IndexOf(t, x) == |s| by {
      assert t[|s|] == x;
      assert forall j :: 0 <= j < |s| ==> t[j] == s[j];
    }
    assert t[..|s|] == s;
  }

  /** Removing the first element's value drops exactly that element. */
  lemma RemoveFirstHead<T>(s: seq<T>)
    requires s != []
    ensures RemoveFirst(s, s[0]) == s[1..]
  {
    assert IndexOf(s, s[0]) == 0;
    assert s[..0] + s[1..] == s[1..];
  }

  /** Two sequences of one length that hold `y` exactly where the other
      holds `x` hold them equally often. */
  lemma {:induction false} CountsAlike<A, B>(xs: seq<A>, ys: seq<B>, x: A, y: B)
    requires |xs| == |ys|
    requires forall k :: 0 <= k < |xs| ==> (ys[k] == y <==> xs[k] == x)
    ensures multiset(ys)[y] == multiset(xs)[x]
    decreases |xs|
  {
    if xs != [] {
      var xr, yr := xs[1..], ys[1..];
      forall k | 0 <= k < |xr| ensures yr[k] == y <==> xr[k] == x {
        assert xr[k] == xs[k + 1] && yr[k] == ys[k + 1];
      }
      CountsAlike(xr, yr, x, y);
      assert xs == [xs[0]] + xr && ys == [ys[0]] + yr;
      assert multiset(xs) == multiset([xs[0]]) + multiset(xr);
      assert multiset(ys) == multiset([ys[0]]) + multiset(yr);
    }
  }
}
