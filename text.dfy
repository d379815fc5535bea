/** Small value types and string helpers shared by every model in this project. */
module Text {

  datatype Option<T> = None | Some(value: T)

  /** The sequence with position `i` removed, as `del s[i]` or `s.pop(i)` leave it. */
  function RemoveAt<T>(s: seq<T>, i: nat): (r: seq<T>)
    requires i < |s|
    ensures |r| == |s| - 1
    ensures forall j :: 0 <= j < i ==> r[j] == s[j]
    ensures forall j :: i <= j < |r| ==> r[j] == s[j + 1]
  {
    s[..i] + s[i + 1..]
  }

  /** Removing a position loses exactly one occurrence of the element there. */
  lemma RemoveAtMultiset<T>(s: seq<T>, i: nat)
    requires i < |s|
    ensures multiset(RemoveAt(s, i)) + multiset{s[i]} == multiset(s)
  {
    assert s == s[..i] + [s[i]] + s[i + 1..];
  }

  /** An element of a non-empty sequence is its last element or lies before it. */
  lemma InLast<T>(s: seq<T>, x: T)
    requires s != []
    ensures x in s <==> x in s[..|s| - 1] || x == s[|s| - 1]
  {
    assert s == s[..|s| - 1] + [s[|s| - 1]];
  }

  /** `str.lower()` restricted to ASCII letters: 'A'..'Z' become 'a'..'z'. */
  function LowerChar(c: char): (r: char)
    ensures 'A' <= c <= 'Z' ==> 'a' <= r <= 'z' && r as int - c as int == 32
    ensures !('A' <= c <= 'Z') ==> r == c
  {
    if 'A' <= c <= 'Z' then (c as int + 32) as char else c
  }

  function Lower(s: string): (r: string)
    ensures |r| == |s|
    ensures forall i :: 0 <= i < |s| ==> r[i] == LowerChar(s[i])
  {
    if s == [] then [] else [LowerChar(s[0])] + Lower(s[1..])
  }

  /** `s.endswith(suffix)` */
  predicate EndsWith(s: string, suffix: string) {
    |suffix| <= |s| && s[|s| - |suffix|..] == suffix
  }

  /** A suffix of a suffix of `s` ends `s`, and still does after lower-casing both. */
  lemma LowerEndsWith(s: string, t: string, u: string)
    requires EndsWith(s, t) && EndsWith(t, u)
    ensures EndsWith(s, u) && EndsWith(Lower(s), Lower(u))
  {
    var k := |s| - |u|;
    assert s[k..] == s[|s| - |t|..][|t| - |u|..];
    var ls, lu := Lower(s), Lower(u);
    assert forall i :: 0 <= i < |u| ==> ls[k..][i] == lu[i];
    assert ls[k..] == lu;
  }

  predicate IsDigit(c: char) {
    '0' <= c <= '9'
  }

  function DigitChar(d: nat): (c: char)
    requires d < 10
    ensures IsDigit(c) && c as int - '0' as int == d
  {
    ('0' as int + d) as char
  }

  /** Decimal rendering of a natural number, as Python's `str(n)` / f-string `{n}`. */
  function NatToString(n: nat): (r: string)
    ensures |r| >= 1
    ensures forall i :: 0 <= i < |r| ==> IsDigit(r[i])
  {
    if n < 10 then [DigitChar(n)] else NatToString(n / 10) + [DigitChar(n % 10)]
  }

  /** Distinct numbers have distinct renderings. */
  lemma {:induction false} NatToStringInjective(a: nat, b: nat)
    requires NatToString(a) == NatToString(b)
    ensures a == b
  {
    var sa, sb := NatToString(a), NatToString(b);
    assert sa[|sa| - 1] == sb[|sb| - 1];
    if a >= 10 && b >= 10 {
      assert NatToString(a / 10) == sa[..|sa| - 1];
      assert NatToString(b / 10) == sb[..|sb| - 1];
      NatToStringInjective(a / 10, b / 10);
    }
  }

  /** In `d + c + rest` with `d` all digits and `c` no digit, the first non-digit sits at |d|;
      hence two such strings agree on `d`. */
  lemma DigitPrefixDetermined(d1: string, d2: string, c: char, rest1: string, rest2: string)
    requires forall i :: 0 <= i < |d1| ==> IsDigit(d1[i])
    requires forall i :: 0 <= i < |d2| ==> IsDigit(d2[i])
    requires !IsDigit(c)
    requires d1 + [c] + rest1 == d2 + [c] + rest2
    ensures d1 == d2 && rest1 == rest2
  {
    var s := d1 + [c] + rest1;
    var t := d2 + [c] + rest2;
    var m := if |d1| < |d2| then |d1| else |d2|;
    assert s[m] == t[m];
    assert |d1| == |d2|;
    assert d1 == s[..|d1|];
    assert d2 == t[..|d2|];
    assert rest1 == s[|d1| + 1..];
    assert rest2 == t[|d2| + 1..];
  }
}
