/** The string operations of Java that the SDP printer and parser are built on, and how they undo
    each other. */
module Text {
  import opened Wrappers

  /** `indexOf(c)` */
  function IndexOf(s: string, c: char): (i: int)
    ensures -1 <= i < |s|
    ensures i >= 0 ==> s[i] == c && forall k | 0 <= k < i :: s[k] != c
    ensures i == -1 ==> c !in s
  {
    if s == "" then -1
    else if s[0] == c then 0
    else
      var i := IndexOf(s[1..], c);
      if i == -1 then -1 else i + 1
  }

  lemma IndexAfter(s: string, c: char, t: string)
    requires c !in s
    ensures IndexOf(s + [c] + t, c) == |s|
  {
    var u := s + [c] + t;
    assert u[|s|] == c;
    assert forall k | 0 <= k < |s| :: s[k] in s && u[k] == s[k];
  }

  /** All pieces between the separators, empty ones included. */
  function Pieces(s: string, c: char): (r: seq<string>)
    ensures |r| >= 1
    decreases |s|
  {
    var i := IndexOf(s, c);
    if i == -1 then [s] else [s[..i]] + Pieces(s[i + 1..], c)
  }

  function WithoutTrailingEmpty(r: seq<string>): seq<string> {
    if r != [] && r[|r| - 1] == "" then WithoutTrailingEmpty(r[..|r| - 1]) else r
  }

  /** `split(" ")`, which drops empty pieces at the end unless there was nothing to split. */
  function Split(s: string): seq<string> {
    if ' ' !in s then [s] else WithoutTrailingEmpty(Pieces(s, ' '))
  }

  function Joined(tokens: seq<string>): string
    requires tokens != []
  {
    if |tokens| == 1 then tokens[0] else tokens[0] + " " + Joined(tokens[1..])
  }

  lemma {:induction false} PiecesOfJoined(tokens: seq<string>)
    requires tokens != [] && forall t <- tokens :: ' ' !in t
    ensures Pieces(Joined(tokens), ' ') == tokens
  {
    assert tokens[0] in tokens;
    if |tokens| == 1 {
      assert ' ' !in Joined(tokens);
    } else {
      IndexAfter(tokens[0], ' ', Joined(tokens[1..]));
      var s := Joined(tokens);
      assert s == tokens[0] + [' '] + Joined(tokens[1..]);
      assert s[..|tokens[0]|] == tokens[0] && s[|tokens[0]| + 1..] == Joined(tokens[1..]);
      PiecesOfJoined(tokens[1..]);
    }
  }

  /** What has been joined by blanks comes apart again. */
  lemma {:induction false} SplitJoined(tokens: seq<string>)
    requires tokens != [] && (forall t <- tokens :: ' ' !in t) && (|tokens| > 1 ==> tokens[|tokens| - 1] != "")
    ensures Split(Joined(tokens)) == tokens
  {
    PiecesOfJoined(tokens);
    if |tokens| > 1 {
      assert Joined(tokens)[|tokens[0]|] == ' ';
    }
  }

  lemma {:induction false} JoinedAppend(tokens: seq<string>, t: string)
    requires tokens != []
    ensures Joined(tokens + [t]) == Joined(tokens) + " " + t
  {
    if |tokens| == 1 {
      assert (tokens + [t])[1..] == [t];
    } else {
      assert (tokens + [t])[1..] == tokens[1..] + [t];
      JoinedAppend(tokens[1..], t);
    }
  }

  // Numbers

  function Digit(n: nat): char
    requires n < 10
  {
    '0' + n as char
  }

  function DigitValue(c: char): Option<nat> {
    if '0' <= c <= '9' then Some((c - '0') as nat) else None
  }

  function PrintNat(n: nat): (s: string)
    ensures s != "" && forall c <- s :: '0' <= c <= '9'
  {
    if n < 10 then [Digit(n)] else PrintNat(n / 10) + [Digit(n % 10)]
  }

  function PrintInt(n: int): (s: string)
    ensures s != "" && forall c <- s :: '0' <= c <= '9' || c == '-'
  {
    if n < 0 then "-" + PrintNat(-n) else PrintNat(n)
  }

  function ParseNat(s: string): Option<nat> {
    if s == "" then None
    else
      var last := DigitValue(s[|s| - 1]);
      if last.None? then None
      else if |s| == 1 then last
      else
        var front := ParseNat(s[..|s| - 1]);
        if front.None? then None else Some(10 * front.value + last.value)
  }

  /** `parseInt` and `parseLong`: an optional sign and decimal digits, within the range of the type. */
  function ParseInt(s: string, bits: nat): Option<int> {
    var negative := s != "" && s[0] == '-';
    var digits := if s != "" && (s[0] == '-' || s[0] == '+') then s[1..] else s;
    var n := ParseNat(digits);
    if n.None? then None
    else
      var v: int := if negative then -(n.value as int) else n.value;
      if InRange(v, bits) then Some(v) else None
  }

  predicate InRange(v: int, bits: nat) {
    if bits == 32 then -0x8000_0000 <= v < 0x8000_0000 else -0x8000_0000_0000_0000 <= v < 0x8000_0000_0000_0000
  }

  lemma {:induction false} ParsePrintedNat(n: nat)
    ensures ParseNat(PrintNat(n)) == Some(n)
  {
    if n >= 10 {
      ParsePrintedNat(n / 10);
      var s := PrintNat(n);
      assert s[..|s| - 1] == PrintNat(n / 10);
    }
  }

  lemma ParsePrinted(n: int, bits: nat)
    requires InRange(n, bits)
    ensures ParseInt(PrintInt(n), bits) == Some(n)
  {
    ParsePrintedNat(if n < 0 then -n else n);
    if n < 0 {
      assert PrintInt(n)[1..] == PrintNat(-n);
    } else {
      assert PrintNat(n)[0] in PrintNat(n);
    }
  }

  // Lines

  predicate IsBreak(c: char) {
    c == '\r' || c == '\n'
  }

  /** No line end inside. */
  predicate OneLine(s: string) {
    forall c <- s :: !IsBreak(c)
  }

  function LineLength(s: string): (n: nat)
    ensures n <= |s| && (n < |s| ==> IsBreak(s[n])) && forall k | 0 <= k < n :: !IsBreak(s[k])
  {
    if s == "" || IsBreak(s[0]) then 0 else 1 + LineLength(s[1..])
  }

  /** `readLine` until it gives null: a line ends with CR, LF or both. */
  function ReadLines(s: string): seq<string>
    decreases |s|
  {
    if s == "" then []
    else
      var n := LineLength(s);
      if n == |s| then [s]
      else [s[..n]] + ReadLines(if s[n] == '\r' && n + 1 < |s| && s[n + 1] == '\n' then s[n + 2..] else s[n + 1..])
  }

  function Ended(lines: seq<string>): string {
    if lines == [] then "" else lines[0] + "\r\n" + Ended(lines[1..])
  }

  lemma ReadOne(line: string, rest: string)
    requires OneLine(line)
    ensures ReadLines(line + "\r\n" + rest) == [line] + ReadLines(rest)
  {
    var s := line + "\r\n" + rest;
    var n := LineLength(s);
    assert s[|line|] == '\r' && s[|line| + 1] == '\n';
    assert forall k | 0 <= k < |line| :: line[k] in line && s[k] == line[k];
    assert s[..n] == line && s[n + 2..] == rest;
  }

  /** Lines that have been printed are read back. */
  lemma {:induction false} ReadPrintedLines(lines: seq<string>)
    requires forall l <- lines :: OneLine(l)
    ensures ReadLines(Ended(lines)) == lines
  {
    if lines != [] {
      ReadOne(lines[0], Ended(lines[1..]));
      ReadPrintedLines(lines[1..]);
    }
  }

  lemma {:induction false} EndedJoined(a: seq<string>, b: seq<string>)
    ensures Ended(a + b) == Ended(a) + Ended(b)
  {
    if a == [] {
      assert a + b == b;
    } else {
      assert (a + b)[1..] == a[1..] + b;
      EndedJoined(a[1..], b);
    }
  }

  /** `"".equals(s.trim())` */
  predicate IsBlank(s: string) {
    forall c <- s :: c <= ' '
  }

  predicate EqualsIgnoreCase(a: string, b: string) {
    |a| == |b| && forall i | 0 <= i < |a| :: Lower(a[i]) == Lower(b[i])
  }

  function Lower(c: char): char {
    if 'A' <= c <= 'Z' then c + ('a' - 'A') else c
  }
}
