/** The JavaScript string built-ins the pages use: `repeat`, `padEnd` and `indexOf`. */
module Text {

  /** The character `c` repeated `n` times (`c.repeat(n)`). */
  function Repeat(c: char, n: nat): (r: string)
    ensures |r| == n
    ensures forall i :: 0 <= i < n ==> r[i] == c
  {
    if n == 0 then [] else [c] + Repeat(c, n - 1)
  }

  /** `s.padEnd(target, c)`: `s` followed by copies of `c` up to length `target`;
      a target not longer than `s` leaves `s` as it is. */
  function PadEnd(s: string, target: int, c: char): (r: string)
    ensures |r| == if target <= |s| then |s| else target
    ensures r[..|s|] == s
    ensures forall i :: |s| <= i < |r| ==> r[i] == c
  {
    if target <= |s| then s else s + Repeat(c, target - |s|)
  }

  /** `s.indexOf(c)`: the position of the first `c` in `s`, or -1 when there is none. */
  function IndexOf(s: string, c: char): (r: int)
    ensures -1 <= r < |s|
    ensures r == -1 <==> c !in s
    ensures 0 <= r ==> s[r] == c && c !in s[..r]
  {
    if s == [] then -1
    else if s[0] == c then 0
    else
      var k := IndexOf(s[1..], c);
      if k == -1 then -1 else k + 1
  }
}
