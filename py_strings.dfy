/** The two Python string methods the device finder relies on:
    `str.upper` (restricted here to ASCII letters) and `str.center`. */
module PyStrings {

  /** Upper-case one character; only the ASCII letters a-z change. */
  function UpperChar(c: char): (u: char)
    ensures 'a' <= c <= 'z' ==> u as int == c as int - 32
    ensures !('a' <= c <= 'z') ==> u == c
    ensures !('a' <= u <= 'z')
  {
    if 'a' <= c <= 'z' then (c as int - 32) as char else c
  }

  /** `s.upper()`: every character upper-cased, length kept. */
  function Upper(s: string): (r: string)
    ensures |r| == |s|
    ensures forall i :: 0 <= i < |s| ==> r[i] == UpperChar(s[i])
  {
    if s == [] then [] else [UpperChar(s[0])] + Upper(s[1..])
  }

  /** Upper-casing twice is upper-casing once. */
  lemma UpperIdempotent(s: string)
    ensures Upper(Upper(s)) == Upper(s)
  {
    var u := Upper(s);
    assert |Upper(u)| == |u|;
    forall i | 0 <= i < |u|
      ensures Upper(u)[i] == u[i]
    {
      assert u[i] == UpperChar(s[i]);
    }
  }

  /** Two strings upper-case alike exactly when they agree letter by letter
      up to ASCII case. */
  lemma {:induction false} UpperEqualIffCaseless(s: string, t: string)
    ensures Upper(s) == Upper(t) <==>
            |s| == |t| && forall i :: 0 <= i < |s| ==> UpperChar(s[i]) == UpperChar(t[i])
  {
    if |s| == |t| && forall i :: 0 <= i < |s| ==> UpperChar(s[i]) == UpperChar(t[i]) {
      forall i | 0 <= i < |s|
        ensures Upper(s)[i] == Upper(t)[i]
      {
      }
    }
    if Upper(s) == Upper(t) {
      forall i | 0 <= i < |s|
        ensures UpperChar(s[i]) == UpperChar(t[i])
      {
        assert Upper(s)[i] == Upper(t)[i];
      }
    }
  }

  /** Number of fill characters `str.center` puts on the left: half the
      margin, plus one more when both the margin and the width are odd
      (CPython's rule). */
  function CenterLeft(len: nat, width: nat): (left: nat)
    requires len < width
    ensures left + len <= width
    ensures var right := width - len - left;
            right == left || right == left + 1 || left == right + 1
  {
    var marg := width - len;
    marg / 2 + (if marg % 2 == 1 && width % 2 == 1 then 1 else 0)
  }

  /** `s.center(width, fill)`. */
  function Center(s: string, width: nat, fill: char): (r: string)
    ensures width <= |s| ==> r == s
    ensures |s| < width ==>
              var left := CenterLeft(|s|, width);
              && |r| == width
              && r[left..left + |s|] == s
              && (forall i :: 0 <= i < left ==> r[i] == fill)
              && (forall i :: left + |s| <= i < width ==> r[i] == fill)
  {
    if width <= |s| then s
    else
      var left := CenterLeft(|s|, width);
      seq(left, _ => fill) + s + seq(width - |s| - left, _ => fill)
  }
}
