/** Small helpers shared by the whole model: an Option type, Python's rendering of an
    optional string, `int(x)` on a float, decimal rendering of naturals, ASCII case
    folding and substring search. */
module Common {

  datatype Option<+T> = None | Some(value: T) {
    function GetOr(default: T): T {
      match this
      case Some(v) => v
      case None => default
    }
  }

  /** Python's `str()` of a value that is a string or None. */
  function Render(s: Option<string>): (r: string)
    ensures s.Some? ==> r == s.value
    ensures s.None? ==> r == "None"
  {
    match s
    case Some(v) => v
    case None => "None"
  }

  /** Python's `int(x)` for a float: truncation toward zero. */
  function Trunc(x: real): (n: int)
    ensures 0.0 <= x ==> n as real <= x < n as real + 1.0
    ensures x < 0.0 ==> n as real - 1.0 < x <= n as real
  {
    if 0.0 <= x then x.Floor else -((-x).Floor)
  }

  function DigitChar(d: nat): (c: char)
    requires d < 10
    ensures '0' <= c <= '9'
  {
    "0123456789"[d]
  }

  /** Python's `str(n)` for a natural number. */
  function NatText(n: nat): (s: string)
    ensures |s| > 0
    ensures forall i :: 0 <= i < |s| ==> '0' <= s[i] <= '9'
  {
    if n < 10 then [DigitChar(n)] else NatText(n / 10) + [DigitChar(n % 10)]
  }

  predicate IsAsciiUpper(c: char) { 'A' <= c <= 'Z' }

  function LowerChar(c: char): char {
    if IsAsciiUpper(c) then (c as int + 32) as char else c
  }

  /** `str.lower()` restricted to the ASCII letters. */
  function Lower(s: string): (r: string)
    ensures |r| == |s|
    ensures forall i :: 0 <= i < |s| ==> r[i] == LowerChar(s[i])
  {
    seq(|s|, i requires 0 <= i < |s| => LowerChar(s[i]))
  }

  predicate IsPrefix(w: string, s: string) {
    |w| <= |s| && s[..|w|] == w
  }

  /** Python's `w in s` for two strings. */
  predicate Contains(s: string, w: string)
    decreases |s|
  {
    IsPrefix(w, s) || (s != [] && Contains(s[1..], w))
  }

  /** No element occurs twice. */
  predicate Distinct<T(==)>(s: seq<T>) {
    forall i, j :: 0 <= i < j < |s| ==> s[i] != s[j]
  }

  /** A duplicate-free sequence has as many elements as its set. */
  lemma {:induction false} DistinctCard<T>(s: seq<T>)
    requires Distinct(s)
    ensures |set x | x in s| == |s|
  {
    if s != [] {
      var t := s[..|s| - 1];
      assert Distinct(t);
      DistinctCard(t);
      var last := s[|s| - 1];
      assert (set x | x in s) == (set x | x in t) + {last} by {
        forall x | x in s ensures x in t || x == last {
          var i :| 0 <= i < |s| && s[i] == x;
          if i < |s| - 1 { assert t[i] == x; }
        }
        assert forall x :: x in t ==> x in s;
      }
      assert forall i :: 0 <= i < |t| ==> t[i] != last by {
        forall i | 0 <= i < |t| ensures t[i] != last { assert t[i] == s[i]; }
      }
    }
  }

  /** Concatenation regroups freely. */
  lemma ConcatAssoc<T>(a: seq<T>, b: seq<T>, c: seq<T>)
    ensures a + (b + c) == (a + b) + c
  {
  }
}
