/**
 * String helpers shared by the two scrapers: Python's whitespace class and
 * str.strip(), decimal digits and int()/str() on naturals, and str.split('/')
 * with '/'.join().  Whitespace is the full set of characters str.isspace()
 * accepts, which is also what `\s` matches in a str pattern; digits are the
 * ASCII ones only.
 */
module Text {

  /**
   * The characters for which Python's str.isspace() holds: the ASCII
   * controls TAB to CR and FS to US, the space, NEL, NO-BREAK SPACE, OGHAM
   * SPACE MARK, the spaces from EN QUAD to HAIR SPACE, the line and paragraph
   * separators, NARROW NO-BREAK SPACE, MEDIUM MATHEMATICAL SPACE and
   * IDEOGRAPHIC SPACE.
   */
  predicate IsSpace(c: char) {
    ('\t' <= c <= '\r') || ('\U{1C}' <= c <= ' ')
    || c == '\U{85}' || c == '\U{A0}' || c == '\U{1680}'
    || ('\U{2000}' <= c <= '\U{200A}')
    || c == '\U{2028}' || c == '\U{2029}' || c == '\U{202F}' || c == '\U{205F}'
    || c == '\U{3000}'
  }

  /** The ASCII decimal digits. */
  predicate IsDigit(c: char) {
    '0' <= c <= '9'
  }

  /** s with leading whitespace removed (str.lstrip()). */
  function StripLeft(s: string): (r: string)
    ensures |r| <= |s| && r == s[|s| - |r|..]
    ensures r == [] || !IsSpace(r[0])
    ensures forall i :: 0 <= i < |s| - |r| ==> IsSpace(s[i])
  {
    if s != [] && IsSpace(s[0]) then StripLeft(s[1..]) else s
  }

  /** s with trailing whitespace removed (str.rstrip()). */
  function StripRight(s: string): (r: string)
    ensures |r| <= |s| && r == s[..|r|]
    ensures r == [] || !IsSpace(r[|r| - 1])
    ensures forall i :: |r| <= i < |s| ==> IsSpace(s[i])
  {
    if s != [] && IsSpace(s[|s| - 1]) then StripRight(s[..|s| - 1]) else s
  }

  /** str.strip() with no argument. */
  function Strip(s: string): string {
    StripRight(StripLeft(s))
  }

  /** A string that neither starts nor ends with whitespace is its own strip. */
  lemma StripUntouched(s: string)
    requires s == [] || (!IsSpace(s[0]) && !IsSpace(s[|s| - 1]))
    ensures Strip(s) == s
  {
  }

  /** Leading whitespace is dropped by StripLeft. */
  lemma {:induction false} StripLeftSpaces(w: string, s: string)
    requires forall i :: 0 <= i < |w| ==> IsSpace(w[i])
    requires s == [] || !IsSpace(s[0])
    ensures StripLeft(w + s) == s
  {
    if w != [] {
      assert (w + s)[1..] == w[1..] + s;
      StripLeftSpaces(w[1..], s);
    } else {
      assert w + s == s;
    }
  }

  /** Trailing whitespace after a non-space character is all rstrip() touches. */
  lemma {:induction false} StripRightAppend(a: string, b: string)
    requires a != [] && !IsSpace(a[|a| - 1])
    ensures StripRight(a + b) == a + StripRight(b)
  {
    if b == [] {
      assert a + b == a;
    } else if IsSpace(b[|b| - 1]) {
      assert (a + b)[..|a + b| - 1] == a + b[..|b| - 1];
      StripRightAppend(a, b[..|b| - 1]);
    } else {
      assert (a + b)[|a + b| - 1] == b[|b| - 1];
    }
  }

  /** No digit is whitespace. */
  lemma DigitNotSpace(c: char)
    requires IsDigit(c)
    ensures !IsSpace(c)
  {
  }

  /** str.strip() returns a slice of its argument: the part between the stripped ends. */
  lemma StripIsSlice(s: string) returns (a: nat)
    ensures a + |Strip(s)| <= |s|
    ensures forall i :: 0 <= i < |Strip(s)| ==> Strip(s)[i] == s[a + i]
  {
    var l := StripLeft(s);
    a := |s| - |l|;
    assert l == s[a..];
    assert Strip(s) == l[..|Strip(s)|];
  }

  /** A text is its first i characters, the next j, one more character and the rest. */
  lemma Reassemble(t: string, i: nat, j: nat)
    requires i + j < |t|
    ensures t == t[..i] + t[i..][..j] + [t[i..][j..][0]] + t[i..][j..][1..]
  {
    var r := t[i..];
    var a := r[j..];
    assert a == [a[0]] + a[1..];
    assert r == r[..j] + a;
    assert t == t[..i] + r;
  }

  /** The longest prefix of s made of digits. */
  function LeadingDigits(s: string): (r: string)
    ensures |r| <= |s| && r == s[..|r|]
    ensures forall i :: 0 <= i < |r| ==> IsDigit(r[i])
    ensures |r| == |s| || !IsDigit(s[|r|])
  {
    if s != [] && IsDigit(s[0]) then [s[0]] + LeadingDigits(s[1..]) else []
  }

  /** The longest prefix of s made of whitespace. */
  function LeadingSpaces(s: string): (r: string)
    ensures |r| <= |s| && r == s[..|r|]
    ensures forall i :: 0 <= i < |r| ==> IsSpace(r[i])
    ensures |r| == |s| || !IsSpace(s[|r|])
  {
    if s != [] && IsSpace(s[0]) then [s[0]] + LeadingSpaces(s[1..]) else []
  }

  function DigitValue(c: char): (d: nat)
    requires IsDigit(c)
    ensures d < 10
  {
    (c as int) - ('0' as int)
  }

  function DigitChar(d: nat): (c: char)
    requires d < 10
    ensures IsDigit(c) && DigitValue(c) == d
  {
    (('0' as int) + d) as char
  }

  /** int(s) for a string of decimal digits (leading zeros allowed). */
  function DigitsValue(s: string): nat
    requires forall i :: 0 <= i < |s| ==> IsDigit(s[i])
  {
    if s == [] then 0 else DigitsValue(s[..|s| - 1]) * 10 + DigitValue(s[|s| - 1])
  }

  /** str(n) for a natural number: its shortest decimal spelling. */
  function NatToString(n: nat): (s: string)
    ensures s != [] && forall i :: 0 <= i < |s| ==> IsDigit(s[i])
    decreases n
  {
    if n < 10 then [DigitChar(n)] else NatToString(n / 10) + [DigitChar(n % 10)]
  }

  /** Reading back what str(n) writes gives n. */
  lemma {:induction false} NatToStringRoundTrip(n: nat)
    ensures DigitsValue(NatToString(n)) == n
    decreases n
  {
    var s := NatToString(n);
    if n >= 10 {
      assert s[..|s| - 1] == NatToString(n / 10);
      NatToStringRoundTrip(n / 10);
    } else {
      assert s[..|s| - 1] == [];
    }
  }

  /** str() is injective on naturals. */
  lemma NatToStringInjective(m: nat, n: nat)
    requires NatToString(m) == NatToString(n)
    ensures m == n
  {
    NatToStringRoundTrip(m);
    NatToStringRoundTrip(n);
  }

  /** s.split('/') in Python: the pieces between slashes, always at least one. */
  function SplitSlash(s: string): (parts: seq<string>)
    ensures |parts| >= 1
  {
    if s == [] then [[]]
    else if s[0] == '/' then [[]] + SplitSlash(s[1..])
    else
      var rest := SplitSlash(s[1..]);
      [[s[0]] + rest[0]] + rest[1..]
  }

  /** '/'.join(parts) in Python. */
  function JoinSlash(parts: seq<string>): string {
    if parts == [] then []
    else if |parts| == 1 then parts[0]
    else parts[0] + "/" + JoinSlash(parts[1..])
  }

  /** Gluing text onto the first piece glues it onto the joined string. */
  lemma JoinSlashPrepend(c: string, p: string, ps: seq<string>)
    ensures JoinSlash([c + p] + ps) == c + JoinSlash([p] + ps)
  {
    if ps != [] {
      assert ([c + p] + ps)[1..] == ps;
      assert ([p] + ps)[1..] == ps;
    }
  }

  /** Joining the pieces of a split gives the string back. */
  lemma {:induction false} SplitJoinRoundTrip(s: string)
    ensures JoinSlash(SplitSlash(s)) == s
  {
    if s == [] {
    } else if s[0] == '/' {
      var rest := SplitSlash(s[1..]);
      SplitJoinRoundTrip(s[1..]);
      assert ([[]] + rest)[1..] == rest;
      assert s == [] + "/" + s[1..];
    } else {
      var rest := SplitSlash(s[1..]);
      SplitJoinRoundTrip(s[1..]);
      JoinSlashPrepend([s[0]], rest[0], rest[1..]);
      assert [rest[0]] + rest[1..] == rest;
      assert s == [s[0]] + s[1..];
    }
  }

  /** Splitting a slash-free head followed by a slash peels that head off. */
  lemma {:induction false} SplitSlashHead(a: string, b: string)
    requires '/' !in a
    ensures SplitSlash(a + "/" + b) == [a] + SplitSlash(b)
  {
    if a == [] {
      assert a + "/" + b == "/" + b;
      assert ("/" + b)[1..] == b;
    } else {
      assert (a + "/" + b)[1..] == a[1..] + "/" + b;
      assert a[0] != '/' by { assert a[0] in a; }
      SplitSlashHead(a[1..], b);
      assert [a[0]] + a[1..] == a;
    }
  }

  /** A slash-free string splits into itself alone. */
  lemma {:induction false} SplitSlashFree(a: string)
    requires '/' !in a
    ensures SplitSlash(a) == [a]
  {
    if a != [] {
      assert a[0] != '/' by { assert a[0] in a; }
      assert '/' !in a[1..] by {
        forall i | 0 <= i < |a| - 1 ensures a[1..][i] != '/' { assert a[1..][i] == a[i + 1]; }
      }
      SplitSlashFree(a[1..]);
      assert [a[0]] + a[1..] == a;
    }
  }

  /** Python's xs[k:] for k >= 0, which is empty once k passes the end. */
  function DropPrefix<T>(xs: seq<T>, k: nat): (r: seq<T>)
    ensures |r| == if k <= |xs| then |xs| - k else 0
    ensures forall i :: 0 <= i < |r| ==> r[i] == xs[k + i]
  {
    if k <= |xs| then xs[k..] else []
  }
}
