/** The string operations the handlers and the editor rely on: `trim`,
    `toLowerCase`, `startsWith` and `Array.prototype.join`. Characters are
    Unicode scalar values; whitespace and case mapping are modelled on ASCII. */
module Text {

  /** The ASCII whitespace that `String.prototype.trim` removes. */
  predicate IsSpace(c: char) {
    c == ' ' || c == '\t' || c == '\n' || c == '\r' || c == '\U{000B}' || c == '\U{000C}'
  }

  predicate AllSpace(s: string) {
    forall i :: 0 <= i < |s| ==> IsSpace(s[i])
  }

  /** `s` with its leading whitespace removed. */
  function TrimStart(s: string): (r: string)
    ensures |r| <= |s| && r == s[|s| - |r|..]
    ensures AllSpace(s[..|s| - |r|])
    ensures r != [] ==> !IsSpace(r[0])
    decreases |s|
  {
    if s != [] && IsSpace(s[0]) then TrimStart(s[1..]) else s
  }

  /** `s` with its trailing whitespace removed. */
  function TrimEnd(s: string): (r: string)
    ensures |r| <= |s| && r == s[..|r|]
    ensures AllSpace(s[|r|..])
    ensures r != [] ==> !IsSpace(r[|r| - 1])
    decreases |s|
  {
    if s != [] && IsSpace(s[|s| - 1]) then
      var r := TrimEnd(s[..|s| - 1]);
      assert s[|r|..] == s[..|s| - 1][|r|..] + [s[|s| - 1]];
      r
    else s
  }

  /** `s.trim()`: the result is empty exactly when `s` is all whitespace,
      and otherwise begins and ends with a non-whitespace character;
      `TrimIsMiddle` places it inside `s`. */
  function Trim(s: string): (r: string)
    ensures |r| <= |s|
    ensures r == [] <==> AllSpace(s)
    ensures r != [] ==> !IsSpace(r[0]) && !IsSpace(r[|r| - 1])
  {
    var t := TrimStart(s);
    var r := TrimEnd(t);
    assert r != [] ==> r[0] == t[0];
    assert r == [] ==> AllSpace(t) by {
      if r == [] { assert t[|r|..] == t; }
    }
    assert AllSpace(t) ==> AllSpace(s) by {
      if t == [] { assert s[..|s|] == s; }
    }
    r
  }

  /** The `n` characters of `s` from offset `i` on have only whitespace
      before them and after them. */
  predicate MiddleAt(s: string, i: nat, n: nat) {
    i + n <= |s| && AllSpace(s[..i]) && AllSpace(s[i + n..])
  }

  /** `r` is the slice of `s` at offset `i`, with only whitespace around it. */
  predicate SitsAt(s: string, i: nat, r: string) {
    MiddleAt(s, i, |r|) && r == s[i..i + |r|]
  }

  /** The trimmed string is the middle of `s`: what lies before it and what
      lies after it is whitespace only. */
  lemma TrimIsMiddle(s: string)
    ensures exists i: nat :: SitsAt(s, i, Trim(s))
  {
    TrimAt(s);
  }

  /** The trimmed string starts where the leading whitespace ends. */
  lemma TrimAt(s: string)
    ensures SitsAt(s, |s| - |TrimStart(s)|, Trim(s))
  {
    var t := TrimStart(s);
    TrimInside(s, t, |s| - |t|);
    assert Trim(s) == TrimEnd(t);
  }

  /** Once leading whitespace is gone, dropping trailing whitespace leaves a
      middle slice of `s` with whitespace only on either side. */
  lemma TrimInside(s: string, t: string, i: nat)
    requires i + |t| == |s| && t == s[i..] && AllSpace(s[..i])
    ensures SitsAt(s, i, TrimEnd(t))
  {
    var r := TrimEnd(t);
    assert s[i + |r|..] == t[|r|..];
  }

  /** A string without whitespace at either end is its own trim. */
  lemma TrimKeepsTrimmed(s: string)
    requires s != [] ==> !IsSpace(s[0]) && !IsSpace(s[|s| - 1])
    ensures Trim(s) == s
  {
  }

  /** Trimming twice is trimming once. */
  lemma TrimIdempotent(s: string)
    ensures Trim(Trim(s)) == Trim(s)
  {
    TrimKeepsTrimmed(Trim(s));
  }

  /** ASCII `toLowerCase` on one character. */
  function LowerChar(c: char): char {
    if 'A' <= c <= 'Z' then (c as int - 'A' as int + 'a' as int) as char else c
  }

  /** `s.toLowerCase()`, character by character: the length is kept, each
      capital letter becomes its own lower-case letter, and every other
      character, whitespace included, is kept as it was. */
  function Lower(s: string): (r: string)
    ensures |r| == |s|
    ensures forall i :: 0 <= i < |r| ==> !('A' <= r[i] <= 'Z')
    ensures forall i :: 0 <= i < |s| && !('A' <= s[i] <= 'Z') ==> r[i] == s[i]
    ensures forall i :: 0 <= i < |s| ==> (IsSpace(r[i]) <==> IsSpace(s[i]))
    ensures forall i :: 0 <= i < |s| && 'A' <= s[i] <= 'Z' ==>
      r[i] as int == s[i] as int - 'A' as int + 'a' as int
  {
    seq(|s|, i requires 0 <= i < |s| => LowerChar(s[i]))
  }

  /** Lower-casing twice is lower-casing once. */
  lemma LowerIdempotent(s: string)
    ensures Lower(Lower(s)) == Lower(s)
  {
  }

  /** Lower-casing a middle slice of `s` gives the lower-cased slice at the
      same place. */
  lemma LowerOfMiddle(s: string, r: string, i: nat, lowered: string)
    requires SitsAt(s, i, r) && lowered == Lower(r)
    ensures exists j: nat :: MiddleAt(s, j, |lowered|) && lowered == Lower(s[j..j + |lowered|])
  {
    assert |lowered| == |r|;
    assert MiddleAt(s, i, |lowered|);
  }

  /** Lower-casing the trimmed string gives the lower-cased middle of `s`,
      with whitespace only before and after that middle. */
  lemma LoweredTrimIsMiddle(s: string, lowered: string)
    requires lowered == Lower(Trim(s))
    ensures exists i: nat :: MiddleAt(s, i, |lowered|) && lowered == Lower(s[i..i + |lowered|])
  {
    TrimAt(s);
    LowerOfMiddle(s, Trim(s), |s| - |TrimStart(s)|, lowered);
  }

  /** `s.startsWith(prefix)`: `s` is `prefix` followed by the rest of `s`. */
  predicate StartsWith(s: string, prefix: string)
    ensures StartsWith(s, prefix) <==> prefix <= s
    ensures StartsWith(s, prefix) ==> s == prefix + s[|prefix|..]
  {
    |prefix| <= |s| && s[..|prefix|] == prefix
  }

  /** The summed length of `parts`. */
  function TotalLength(parts: seq<string>): nat {
    if parts == [] then 0 else |parts[0]| + TotalLength(parts[1..])
  }

  /** `parts.join(sep)`: no parts give "", one part gives itself, and in
      general the result starts with the first part and holds every part
      and one separator between each two. */
  function Join(parts: seq<string>, sep: string): (r: string)
    ensures |parts| == 0 ==> r == ""
    ensures |parts| == 1 ==> r == parts[0]
    ensures |parts| > 0 ==> parts[0] <= r
    ensures |parts| > 0 ==> |r| == TotalLength(parts) + (|parts| - 1) * |sep|
    decreases |parts|
  {
    if |parts| == 0 then ""
    else if |parts| == 1 then parts[0]
    else parts[0] + sep + Join(parts[1..], sep)
  }

  /** Joining one more part appends the separator and that part: the parts
      appear in order, separated by `sep`. */
  lemma {:induction false} JoinSnoc(parts: seq<string>, last: string, sep: string)
    requires |parts| > 0
    ensures Join(parts + [last], sep) == Join(parts, sep) + sep + last
    decreases |parts|
  {
    if |parts| == 1 {
      assert parts + [last] == [parts[0], last];
      assert [parts[0], last][1..] == [last];
    } else {
      assert (parts + [last])[1..] == parts[1..] + [last];
      JoinSnoc(parts[1..], last, sep);
    }
  }
}
