/** The parts of Go's `strings` and `unicode` packages the modelled code relies on. */
module Text {

  // unicode.IsSpace
  predicate IsSpace(c: char) {
    var u := c as int;
    9 <= u <= 13 || u == 0x20 || u == 0x85 || u == 0xA0 || u == 0x1680
    || 0x2000 <= u <= 0x200a || u == 0x2028 || u == 0x2029 || u == 0x202f || u == 0x205f || u == 0x3000
  }

  // unicode.IsControl
  predicate IsControl(c: char) {
    var u := c as int;
    u < 0x20 || 0x7f <= u < 0xa0
  }

  // The number of bytes of a character in UTF-8.
  function Utf8Width(c: char): nat {
    var u := c as int;
    if u < 0x80 then 1 else if u < 0x800 then 2 else if u < 0x10000 then 3 else 4
  }

  // len(s) of the Go string holding these characters.
  function Utf8Len(s: string): nat {
    if s == [] then 0 else Utf8Len(s[..|s| - 1]) + Utf8Width(s[|s| - 1])
  }

  function TrimLeft(s: string): string {
    if s == [] || !IsSpace(s[0]) then s else TrimLeft(s[1..])
  }

  function TrimRight(s: string): string {
    if s == [] || !IsSpace(s[|s| - 1]) then s else TrimRight(s[..|s| - 1])
  }

  function TrimSpace(s: string): string {
    TrimRight(TrimLeft(s))
  }

  lemma {:induction false} TrimLeftStart(s: string)
    ensures TrimLeft(s) != [] ==> !IsSpace(TrimLeft(s)[0])
    ensures |TrimLeft(s)| <= |s|
  {
    if s != [] && IsSpace(s[0]) {
      TrimLeftStart(s[1..]);
    }
  }

  lemma {:induction false} TrimRightEnds(s: string)
    ensures var r := TrimRight(s); r <= s && (r != [] ==> !IsSpace(r[|r| - 1]))
  {
    if s != [] && IsSpace(s[|s| - 1]) {
      TrimRightEnds(s[..|s| - 1]);
    }
  }

  // A trimmed string has no space at either end, so trimming it again changes nothing.
  lemma TrimSpaceStable(s: string)
    ensures TrimSpace(TrimSpace(s)) == TrimSpace(s)
  {
    TrimLeftStart(s);
    TrimRightEnds(TrimLeft(s));
  }

  // The part of s from k to n is what is left when the white space around it is gone.
  ghost predicate TrimmedTo(s: string, k: nat, n: nat) {
    && k <= n <= |s| && (forall i :: 0 <= i < k || n <= i < |s| ==> IsSpace(s[i]))
    && (k < n ==> !IsSpace(s[k]) && !IsSpace(s[n - 1]))
  }

  lemma {:induction false} TrimLeftCuts(s: string) returns (k: nat)
    ensures k <= |s| && TrimLeft(s) == s[k..] && (forall i :: 0 <= i < k ==> IsSpace(s[i])) && (k < |s| ==> !IsSpace(s[k]))
  {
    hide IsSpace;
    k := 0;
    if s != [] && IsSpace(s[0]) {
      var j := TrimLeftCuts(s[1..]);
      k := j + 1;
      assert s[1..][j..] == s[k..];
      assert forall i :: 1 <= i < k ==> s[i] == s[1..][i - 1];
    }
  }

  lemma {:induction false} TrimRightCuts(s: string) returns (n: nat)
    ensures n <= |s| && TrimRight(s) == s[..n] && (forall i :: n <= i < |s| ==> IsSpace(s[i])) && (n > 0 ==> !IsSpace(s[n - 1]))
  {
    hide IsSpace;
    n := |s|;
    if s != [] && IsSpace(s[|s| - 1]) {
      n := TrimRightCuts(s[..|s| - 1]);
      assert s[..|s| - 1][..n] == s[..n];
    }
  }

  lemma TrimSpaceCuts(s: string) returns (k: nat, n: nat)
    ensures TrimmedTo(s, k, n) && TrimSpace(s) == s[k..n]
  {
    hide IsSpace, TrimLeft, TrimRight;
    k := TrimLeftCuts(s);
    var t := s[k..];
    var m := TrimRightCuts(t);
    n := k + m;
    assert t[..m] == s[k..n];
    assert forall i :: n <= i < |s| ==> s[i] == t[i - k];
  }

  // The longest prefix of whole characters that fits in `limit` bytes.
  function TakeBytes(s: string, limit: nat): (r: string)
    ensures r <= s && Utf8Len(r) <= limit
  {
    if Utf8Len(s) <= limit then s else TakeBytes(s[..|s| - 1], limit)
  }

  // strconv.Itoa of a natural number.
  function Decimal(n: nat): string {
    if n < 10 then [('0' as int + n) as char] else Decimal(n / 10) + [('0' as int + n % 10) as char]
  }
}
