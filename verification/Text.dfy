/** Strings: trimming, lower case and the order of sorted keys. */
module Text {

  /** White space as the standard library of the source's language has it. */
  predicate IsSpace(c: char) {
    || '\t' <= c <= '\r' || c == ' ' || c == '\U{85}' || c == '\U{A0}' || c == '\U{1680}'
    || '\U{2000}' <= c <= '\U{200A}' || c == '\U{2028}' || c == '\U{2029}' || c == '\U{202F}' || c == '\U{205F}' || c == '\U{3000}'
  }

  function TrimLeft(s: string): (r: string)
    ensures r == [] || !IsSpace(r[0])
  {
    if s != [] && IsSpace(s[0]) then TrimLeft(s[1..]) else s
  }

  function TrimRight(s: string): (r: string)
    ensures r <= s && (r == [] || !IsSpace(r[|r| - 1]))
  {
    if s != [] && IsSpace(s[|s| - 1]) then TrimRight(s[..|s| - 1]) else s
  }

  /** A string without the white space around it. */
  function Trim(s: string): (r: string) {
    TrimRight(TrimLeft(s))
  }

  predicate Trimmed(s: string) {
    s != [] ==> !IsSpace(s[0]) && !IsSpace(s[|s| - 1])
  }

  /** Trimming leaves nothing to trim, and changes nothing when there is nothing to trim. */
  lemma TrimIsTrimmed(s: string)
    ensures Trimmed(Trim(s))
    ensures Trimmed(s) ==> Trim(s) == s
  {
    var t := TrimLeft(s);
    if Trim(s) != [] {
      assert Trim(s)[0] == t[0];
    }
  }

  /** A strict total order on strings: the first difference decides, and a prefix is less. */
  predicate Less(a: string, b: string) {
    if b == [] then false
    else if a == [] then true
    else a[0] < b[0] || (a[0] == b[0] && Less(a[1..], b[1..]))
  }

  lemma {:induction false} LessIsTotal(a: string, b: string)
    ensures a == b || Less(a, b) || Less(b, a)
    ensures !(Less(a, b) && Less(b, a)) && !Less(a, a)
  {
    if a != [] && b != [] {
      LessIsTotal(a[1..], b[1..]);
      LessIsTotal(a[1..], a[1..]);
      assert a == [a[0]] + a[1..] && b == [b[0]] + b[1..];
    } else if a != [] {
      LessIsTotal(a[1..], a[1..]);
    }
  }

  lemma {:induction false} LessIsTransitive(a: string, b: string, c: string)
    requires Less(a, b) && Less(b, c)
    ensures Less(a, c)
  {
    if a != [] && a[0] == b[0] == c[0] {
      LessIsTransitive(a[1..], b[1..], c[1..]);
    }
  }

  ghost predicate IsLeast(s: set<string>, x: string) {
    x in s && forall y :: y in s && y != x ==> Less(x, y)
  }

  lemma LeastIsUnique(s: set<string>, x: string, y: string)
    requires IsLeast(s, x) && IsLeast(s, y)
    ensures x == y
  {
    LessIsTotal(x, y);
  }

  lemma {:induction false} LeastExists(s: set<string>)
    requires s != {}
    ensures exists x :: IsLeast(s, x)
    decreases |s|
  {
    var x :| x in s;
    if s == {x} {
      assert IsLeast(s, x);
    } else {
      LeastExists(s - {x});
      var y :| IsLeast(s - {x}, y);
      LessIsTotal(x, y);
      if Less(x, y) {
        forall z | z in s && z != x ensures Less(x, z) {
          if z != y {
            LessIsTransitive(x, y, z);
          }
        }
        assert IsLeast(s, x);
      } else {
        assert IsLeast(s, y);
      }
    }
  }

  ghost function LeastOf(s: set<string>): (x: string)
    requires s != {}
    ensures IsLeast(s, x)
  {
    LeastExists(s);
    var x :| IsLeast(s, x);
    x
  }

  ghost predicate Ascending(s: seq<string>) {
    forall i, j :: 0 <= i < j < |s| ==> Less(s[i], s[j])
  }

  /** The least of some strings. */
  method Least(s: set<string>) returns (least: string)
    requires s != {}
    ensures IsLeast(s, least)
  {
    least :| least in s;
    var left := s - {least};
    while left != {}
      invariant left <= s && IsLeast(s - left, least)
      decreases |left|
    {
      var x :| x in left;
      LessIsTotal(x, least);
      left := left - {x};
      if Less(x, least) {
        forall y | y in s - left && y != x ensures Less(x, y) {
          if y != least {
            LessIsTransitive(x, least, y);
          }
        }
        least := x;
      }
    }
    assert s - left == s;
  }

  /** The strings of a set, in order. */
  method Sort(s: set<string>) returns (r: seq<string>)
    ensures Ascending(r) && |r| == |s| && forall x :: x in r <==> x in s
  {
    r := [];
    var left := s;
    while left != {}
      invariant left <= s && Ascending(r) && |r| + |left| == |s|
      invariant forall x :: x in r <==> x in s - left
      invariant forall i, x :: 0 <= i < |r| && x in left ==> Less(r[i], x)
      decreases |left|
    {
      var x := Least(left);
      left := left - {x};
      r := r + [x];
    }
  }

  /** The first string of a sorted list with a property is the least with it. */
  lemma FirstIsLeast(r: seq<string>, i: nat, s: set<string>)
    requires Ascending(r) && i < |r| && r[i] in s
    requires forall x :: x in s ==> x in r
    requires forall j :: 0 <= j < i ==> r[j] !in s
    ensures IsLeast(s, r[i])
  {
    forall y | y in s && y != r[i] ensures Less(r[i], y) {
      var j :| 0 <= j < |r| && r[j] == y;
      assert i < j;
    }
  }

  /** Lower case, as far as a comparison with an ASCII word can tell: outside ASCII only the
      Kelvin sign and the dotted capital I have lower-case forms inside it. */
  function LowerChar(c: char): char {
    if 'A' <= c <= 'Z' then c + 32 as char
    else if c == '\U{212A}' then 'k'
    else if c == '\U{130}' then 'i'
    else c
  }

  function Lower(s: string): (r: string)
    ensures |r| == |s| && forall i :: 0 <= i < |s| ==> r[i] == LowerChar(s[i])
  {
    if s == [] then [] else [LowerChar(s[0])] + Lower(s[1..])
  }
}
