/** The pieces of Ruby's `String` library that the driver relies on:
    `count`, `lines`, `chomp`, `split` with a literal separator, the
    awk-style `split(' ', 2)`, and the decimal rendering of an integer in
    string interpolation. Strings are sequences of characters. */
module Text {

  /** The characters Ruby's awk-style `split(' ')` treats as blanks. */
  predicate IsSpace(c: char) {
    c == ' ' || c == '\t' || c == '\n' || c == '\U{B}' || c == '\U{C}' || c == '\r'
  }

  /** Regex `\d`. */
  predicate IsDigit(c: char) {
    '0' as int <= c as int <= '9' as int
  }

  // ---------------------------------------------------------------------
  // count

  /** `s.count(c)` for a one-character argument. */
  function Count(s: string, c: char): (n: nat)
    ensures n <= |s|
  {
    if s == [] then 0 else (if s[0] == c then 1 else 0) + Count(s[1..], c)
  }

  lemma {:induction false} CountAppend(a: string, b: string, c: char)
    ensures Count(a + b, c) == Count(a, c) + Count(b, c)
    decreases |a|
  {
    if a != [] {
      assert (a + b)[0] == a[0] && (a + b)[1..] == a[1..] + b;
      CountAppend(a[1..], b, c);
    } else {
      assert a + b == b;
    }
  }

  lemma {:induction false} CountAbsent(s: string, c: char)
    requires c !in s
    ensures Count(s, c) == 0
    decreases |s|
  {
    if s != [] {
      assert forall i :: 0 <= i < |s[1..]| ==> s[1..][i] == s[i + 1];
      CountAbsent(s[1..], c);
    }
  }

  // ---------------------------------------------------------------------
  // lines

  /** The pieces one after the other. */
  function Concat<T>(ls: seq<seq<T>>): seq<T> {
    if ls == [] then [] else ls[0] + Concat(ls[1..])
  }

  lemma {:induction false} ConcatSnoc<T>(ls: seq<seq<T>>, x: seq<T>)
    ensures Concat(ls + [x]) == Concat(ls) + x
    decreases |ls|
  {
    if ls == [] {
      assert [] + [x] == [x] && [x][1..] == [];
    } else {
      assert (ls + [x])[1..] == ls[1..] + [x];
      ConcatSnoc(ls[1..], x);
    }
  }

  /** Pieces of one element each concatenate to the sequence of those
      elements. */
  lemma {:induction false} ConcatSingletons<T>(ls: seq<seq<T>>)
    requires forall i :: 0 <= i < |ls| ==> |ls[i]| == 1
    ensures |Concat(ls)| == |ls|
    ensures forall i :: 0 <= i < |ls| ==> Concat(ls)[i] == ls[i][0]
    decreases |ls|
  {
    if ls != [] {
      ConcatSingletons(ls[1..]);
      assert forall i :: 1 <= i < |ls| ==> Concat(ls)[i] == Concat(ls[1..])[i - 1];
    }
  }

  /** A piece of text that holds a newline at most as its last character. */
  predicate IsLine(l: string) {
    l != [] && '\n' !in l[..|l| - 1]
  }

  predicate EndsWithNewline(l: string) {
    l != [] && l[|l| - 1] == '\n'
  }

  /** A line together with its terminating newline. */
  predicate IsCompleteLine(l: string) {
    IsLine(l) && EndsWithNewline(l)
  }

  /** `s.lines`: the text cut after every newline, each piece keeping its
      newline; a last piece without one is kept as it is. */
  function Lines(s: string): seq<string>
    decreases |s|
  {
    if s == [] then []
    else
      var rest := Lines(s[1..]);
      if s[0] == '\n' || rest == [] then [[s[0]]] + rest
      else [[s[0]] + rest[0]] + rest[1..]
  }

  /** The lines give the text back, each is a line, every one but the last
      ends with a newline, and only the empty text has none. */
  lemma {:induction false} LinesMeaning(s: string)
    ensures var ls := Lines(s);
      && Concat(ls) == s
      && (forall i :: 0 <= i < |ls| ==> IsLine(ls[i]))
      && (forall i :: 0 <= i < |ls| - 1 ==> EndsWithNewline(ls[i]))
      && (ls == [] <==> s == [])
    decreases |s|
  {
    if s != [] {
      var rest := Lines(s[1..]);
      LinesMeaning(s[1..]);
      var ls := Lines(s);
      if s[0] == '\n' || rest == [] {
        assert IsLine([s[0]]) by { assert [s[0]][..0] == []; }
        assert forall i :: 1 <= i < |ls| ==> ls[i] == rest[i - 1];
      } else {
        var first := [s[0]] + rest[0];
        assert IsLine(first) by {
          assert first[..|first| - 1] == [s[0]] + rest[0][..|rest[0]| - 1];
        }
        assert EndsWithNewline(rest[0]) || |rest| == 1;
        assert EndsWithNewline(rest[0]) ==> EndsWithNewline(first);
        assert Concat([first] + rest[1..]) == first + Concat(rest[1..]);
        assert Concat(rest) == rest[0] + Concat(rest[1..]);
        assert forall i :: 1 <= i < |ls| ==> ls[i] == rest[i];
      }
    }
  }

  /** There is one line per newline, plus one for an unterminated tail. */
  lemma {:induction false} LinesCount(s: string)
    ensures |Lines(s)| == Count(s, '\n') + (if s != [] && s[|s| - 1] != '\n' then 1 else 0)
    decreases |s|
  {
    if s != [] {
      LinesCount(s[1..]);
      if |s| == 1 {
        assert s[1..] == [];
      } else {
        assert s[1..][|s[1..]| - 1] == s[|s| - 1];
      }
    }
  }

  /** A complete line in front of a text is its first line. */
  lemma {:induction false} LinesAfterCompleteLine(a: string, s: string)
    requires IsCompleteLine(a)
    ensures Lines(a + s) == [a] + Lines(s)
    decreases |a|
  {
    if |a| == 1 {
      assert (a + s)[1..] == s && a == [a[0]];
    } else {
      var t := a[1..];
      assert IsCompleteLine(t) by {
        assert t[..|t| - 1] == a[1..|a| - 1];
        assert a[..|a| - 1][0] == a[0];
      }
      assert a[0] != '\n' by { assert a[..|a| - 1][0] == a[0]; }
      assert (a + s)[1..] == t + s;
      LinesAfterCompleteLine(t, s);
      assert [a[0]] + t == a;
    }
  }

  /** Cutting a text at its newlines and putting the pieces back loses nothing,
      and the result is the only decomposition into lines of that shape. */
  lemma {:induction false} LinesOfConcat(ls: seq<string>)
    requires forall i :: 0 <= i < |ls| ==> IsLine(ls[i])
    requires forall i :: 0 <= i < |ls| - 1 ==> EndsWithNewline(ls[i])
    ensures Lines(Concat(ls)) == ls
    decreases |ls|
  {
    if ls != [] {
      if |ls| == 1 {
        assert Concat(ls) == ls[0] + Concat([]) by { assert ls[1..] == []; }
        assert Concat(ls) == ls[0];
        LinesOfSingle(ls[0]);
        assert ls == [ls[0]];
      } else {
        LinesOfConcat(ls[1..]);
        LinesAfterCompleteLine(ls[0], Concat(ls[1..]));
      }
    }
  }

  lemma {:induction false} LinesOfSingle(l: string)
    requires IsLine(l)
    ensures Lines(l) == [l]
    decreases |l|
  {
    if EndsWithNewline(l) {
      LinesAfterCompleteLine(l, []);
      assert l + [] == l;
    } else if |l| > 1 {
      var t := l[1..];
      assert IsLine(t) by { assert t[..|t| - 1] == l[1..|l| - 1]; }
      assert l[0] != '\n' by { assert l[..|l| - 1][0] == l[0]; }
      LinesOfSingle(t);
      assert [l[0]] + t == l;
    } else {
      assert l == [l[0]];
    }
  }

  // ---------------------------------------------------------------------
  // chomp and blank-separated fields

  /** `line.chomp`: drops one trailing "\r\n", "\n" or "\r". */
  function Chomp(l: string): (r: string)
    ensures |l| - 2 <= |r| <= |l| && r == l[..|r|]
    ensures |r| < |l| ==> l[|l| - 1] == '\n' || l[|l| - 1] == '\r'
    ensures |r| == |l| - 2 <==> |l| >= 2 && l[|l| - 2..] == "\r\n"
    ensures l != [] && (l[|l| - 1] == '\n' || l[|l| - 1] == '\r') ==> |r| < |l|
  {
    if |l| >= 2 && l[|l| - 2..] == "\r\n" then l[..|l| - 2]
    else if l != [] && (l[|l| - 1] == '\n' || l[|l| - 1] == '\r') then l[..|l| - 1]
    else l
  }

  /** Chomping a line leaves no newline in it. */
  lemma ChompLine(l: string)
    requires IsLine(l)
    ensures '\n' !in Chomp(l)
  {
    var r := Chomp(l);
    if |r| == |l| {
      assert l[|l| - 1] != '\n';
      assert l == l[..|l| - 1] + [l[|l| - 1]];
    } else {
      assert r == l[..|l| - 1][..|r|];
    }
  }

  /** The text with its leading blanks removed. */
  function TrimLeft(s: string): (r: string)
    ensures |r| <= |s| && r == s[|s| - |r|..]
    ensures r == [] || !IsSpace(r[0])
    ensures forall i :: 0 <= i < |s| - |r| ==> IsSpace(s[i])
    decreases |s|
  {
    if s != [] && IsSpace(s[0]) then TrimLeft(s[1..]) else s
  }

  /** `s` starts with exactly p blanks: there is none at position p. */
  predicate BlanksThen(s: string, p: nat) {
    && p <= |s|
    && (forall i :: 0 <= i < p ==> IsSpace(s[i]))
    && (p == |s| || !IsSpace(s[p]))
  }

  /** Trimming removes the leading blanks and nothing else. */
  lemma TrimLeftBlanks(s: string)
    ensures var r := TrimLeft(s);
      BlanksThen(s, |s| - |r|) && r == s[|s| - |r|..]
  {
    var r := TrimLeft(s);
    if r != [] {
      assert s[|s| - |r|] == r[0];
    }
  }

  /** The number of leading blanks is determined by the text. */
  lemma BlanksThenUnique(s: string, p: nat, m: nat)
    requires BlanksThen(s, p) && BlanksThen(s, m)
    ensures p == m
  {
  }

  /** Blanks up to position p and none at p: trimming removes exactly
      those blanks. */
  lemma TrimLeftAfter(s: string, p: nat)
    requires BlanksThen(s, p)
    ensures TrimLeft(s) == s[p..]
  {
    TrimLeftBlanks(s);
    BlanksThenUnique(s, p, |s| - |TrimLeft(s)|);
  }

  /** The longest prefix without a blank. */
  function Word(s: string): (w: string)
    ensures |w| <= |s| && w == s[..|w|]
    ensures forall i :: 0 <= i < |w| ==> !IsSpace(w[i])
    ensures |w| == |s| || IsSpace(s[|w|])
    decreases |s|
  {
    if s == [] || IsSpace(s[0]) then [] else [s[0]] + Word(s[1..])
  }

  /** A blank-free word followed by a blank (or nothing) is the first word. */
  lemma {:induction false} WordOf(w: string, rest: string)
    requires forall i :: 0 <= i < |w| ==> !IsSpace(w[i])
    requires rest == [] || IsSpace(rest[0])
    ensures Word(w + rest) == w
    decreases |w|
  {
    if w == [] {
      assert w + rest == rest;
    } else {
      assert (w + rest)[0] == w[0] && (w + rest)[1..] == w[1..] + rest;
      WordOf(w[1..], rest);
      assert [w[0]] + w[1..] == w;
    }
  }

  // ---------------------------------------------------------------------
  // split on a literal separator

  predicate OccursAt(s: string, sep: string, i: int) {
    0 <= i && i + |sep| <= |s| && s[i..i + |sep|] == sep
  }

  predicate Occurs(s: string, sep: string) {
    exists i :: 0 <= i <= |s| - |sep| && OccursAt(s, sep, i)
  }

  /** Both texts interpolated into a message occur in it. */
  lemma OccursBoth(a: string, w1: string, b: string, w2: string, c: string)
    ensures Occurs(a + w1 + b + w2 + c, w1) && Occurs(a + w1 + b + w2 + c, w2)
  {
    var s := a + w1 + b + w2 + c;
    var i, j := |a|, |a| + |w1| + |b|;
    assert s[i..i + |w1|] == w1;
    assert OccursAt(s, w1, i);
    assert s[j..j + |w2|] == w2;
    assert OccursAt(s, w2, j);
  }

  /** Text appended after an occurrence keeps it. */
  lemma OccursAppend(s: string, w: string, d: string)
    requires Occurs(s, w)
    ensures Occurs(s + d, w)
  {
    var i :| 0 <= i <= |s| - |w| && OccursAt(s, w, i);
    assert (s + d)[i..i + |w|] == s[i..i + |w|];
    assert OccursAt(s + d, w, i);
  }

  /** The separator cannot overlap itself: its last character occurs nowhere
      else in it. */
  predicate LastCharUnique(sep: string) {
    sep != [] && forall i :: 0 <= i < |sep| - 1 ==> sep[i] != sep[|sep| - 1]
  }

  /** The inverse of SplitOn: the pieces with the separator between them. */
  function Join(ps: seq<string>, sep: string): string
    requires ps != []
  {
    if |ps| == 1 then ps[0] else ps[0] + sep + Join(ps[1..], sep)
  }

  /** All pieces between occurrences of `sep`, scanning from the left,
      empty pieces included. */
  function SplitOn(s: string, sep: string): (ps: seq<string>)
    requires sep != []
    ensures ps != []
    ensures Join(ps, sep) == s
    decreases |s|
  {
    if |s| < |sep| then [s]
    else if s[..|sep|] == sep then
      var rest := SplitOn(s[|sep|..], sep);
      assert s == [] + sep + Join(rest, sep);
      [[]] + rest
    else
      var rest := SplitOn(s[1..], sep);
      var first := [s[0]] + rest[0];
      assert |rest| > 1 ==> Join([first] + rest[1..], sep) == first + sep + Join(rest[1..], sep);
      [first] + rest[1..]
  }

  /** A text that does not contain the separator does not start it. */
  lemma NoSepAtStart(l: string, sep: string, rest: string)
    requires LastCharUnique(sep)
    requires l != [] && !Occurs(l, sep)
    ensures (l + sep + rest)[..|sep|] != sep
  {
    var s := l + sep + rest;
    if |l| >= |sep| {
      assert s[..|sep|] == l[..|sep|];
      assert !OccursAt(l, sep, 0);
    } else {
      var k := |sep| - 1;
      assert s[k] == sep[k - |l|];
    }
  }

  /** Nor does what follows its first character. */
  lemma NoSepInTail(l: string, sep: string)
    requires l != [] && !Occurs(l, sep)
    ensures !Occurs(l[1..], sep)
  {
    forall i | OccursAt(l[1..], sep, i)
      ensures OccursAt(l, sep, i + 1)
    {
      assert l[1..][i..i + |sep|] == l[i + 1..i + 1 + |sep|];
    }
  }

  /** The first piece is everything before the first separator. */
  lemma {:induction false} SplitAfterFirst(l: string, sep: string, rest: string)
    requires LastCharUnique(sep)
    requires !Occurs(l, sep)
    ensures SplitOn(l + sep + rest, sep) == [l] + SplitOn(rest, sep)
    decreases |l|
  {
    var s := l + sep + rest;
    if l == [] {
      assert s == sep + rest;
      assert s[..|sep|] == sep && s[|sep|..] == rest;
    } else {
      NoSepAtStart(l, sep, rest);
      NoSepInTail(l, sep);
      assert s[1..] == l[1..] + sep + rest;
      SplitAfterFirst(l[1..], sep, rest);
      assert [s[0]] + l[1..] == l;
    }
  }


  /** Without an occurrence of the separator there is one piece. */
  lemma {:induction false} SplitWithout(s: string, sep: string)
    requires sep != [] && !Occurs(s, sep)
    ensures SplitOn(s, sep) == [s]
    decreases |s|
  {
    if |s| >= |sep| {
      assert !OccursAt(s, sep, 0);
      assert !Occurs(s[1..], sep) by {
        forall i | OccursAt(s[1..], sep, i) ensures OccursAt(s, sep, i + 1) {
          assert s[1..][i..i + |sep|] == s[i + 1..i + 1 + |sep|];
        }
      }
      SplitWithout(s[1..], sep);
      assert [s[0]] + s[1..] == s;
    }
  }

  /** No piece holds the separator. */
  lemma {:induction false} SplitPiecesAvoidSeparator(s: string, sep: string)
    requires sep != []
    ensures forall i :: 0 <= i < |SplitOn(s, sep)| ==> !Occurs(SplitOn(s, sep)[i], sep)
    decreases |s|
  {
    var ps := SplitOn(s, sep);
    if |s| < |sep| {
      assert forall j :: !OccursAt(s, sep, j);
    } else if s[..|sep|] == sep {
      SplitPiecesAvoidSeparator(s[|sep|..], sep);
      assert !Occurs([], sep) by { assert forall j :: !OccursAt([], sep, j); }
    } else {
      var rest := SplitOn(s[1..], sep);
      SplitPiecesAvoidSeparator(s[1..], sep);
      var first := [s[0]] + rest[0];
      JoinStartsWithFirst(rest, sep);
      assert first == s[..|first|];
      FirstPieceAvoids(s, sep, rest[0]);
      assert ps == [first] + rest[1..];
    }
  }

  /** A first piece that is not the separator's start, extended by a piece
      that avoids it, avoids it too. */
  lemma FirstPieceAvoids(s: string, sep: string, r: string)
    requires sep != [] && |s| >= |sep| && s[..|sep|] != sep
    requires 1 + |r| <= |s| && [s[0]] + r == s[..1 + |r|]
    requires !Occurs(r, sep)
    ensures !Occurs([s[0]] + r, sep)
  {
    var first := [s[0]] + r;
    forall j | OccursAt(first, sep, j) ensures false {
      if j > 0 {
        assert r[j - 1..j - 1 + |sep|] == first[j..j + |sep|];
        assert OccursAt(r, sep, j - 1);
      }
    }
  }

  lemma JoinStartsWithFirst(ps: seq<string>, sep: string)
    requires ps != []
    ensures |ps[0]| <= |Join(ps, sep)| && Join(ps, sep)[..|ps[0]|] == ps[0]
  {
    if |ps| > 1 {
      assert Join(ps, sep) == ps[0] + (sep + Join(ps[1..], sep));
    }
  }

  /** Drops the empty pieces at the end, as Ruby's `split` does without a limit. */
  function DropTrailingEmpty(ps: seq<string>): (r: seq<string>)
    ensures |r| <= |ps| && r == ps[..|r|]
    ensures r == [] || r[|r| - 1] != []
    ensures forall i :: |r| <= i < |ps| ==> ps[i] == []
    decreases |ps|
  {
    if ps != [] && ps[|ps| - 1] == [] then DropTrailingEmpty(ps[..|ps| - 1]) else ps
  }

  /** `s.split(sep)` for a literal separator other than a single blank. */
  function RubySplit(s: string, sep: string): seq<string>
    requires sep != []
  {
    DropTrailingEmpty(SplitOn(s, sep))
  }

  // ---------------------------------------------------------------------
  // decimal rendering of integers (`"#{port}"`)

  function DigitChar(d: nat): char
    requires d < 10
  {
    ['0', '1', '2', '3', '4', '5', '6', '7', '8', '9'][d]
  }

  /** The value of a string of decimal digits. */
  function DecimalValue(s: string): nat
    requires forall i :: 0 <= i < |s| ==> IsDigit(s[i])
  {
    if s == [] then 0
    else
      assert IsDigit(s[|s| - 1]);
      10 * DecimalValue(s[..|s| - 1]) + (s[|s| - 1] as int - '0' as int)
  }

  /** The decimal digits of `n`, without leading zeros. */
  function NatToDecimal(n: nat): (s: string)
    ensures s != [] && forall i :: 0 <= i < |s| ==> IsDigit(s[i])
    ensures |s| > 1 ==> s[0] != '0'
    decreases n
  {
    if n < 10 then [DigitChar(n)] else NatToDecimal(n / 10) + [DigitChar(n % 10)]
  }

  /** Reading back the rendered digits gives the number. */
  lemma {:induction false} DecimalRoundTrip(n: nat)
    ensures DecimalValue(NatToDecimal(n)) == n
    decreases n
  {
    var s := NatToDecimal(n);
    if n >= 10 {
      DecimalRoundTrip(n / 10);
      assert s[..|s| - 1] == NatToDecimal(n / 10);
    }
  }

  // ---------------------------------------------------------------------
  // sequences

  lemma AppendAssoc<T>(a: seq<T>, b: seq<T>, c: seq<T>)
    ensures a + (b + c) == (a + b) + c
  {
  }

  lemma TailOfAppend<T>(a: seq<T>, b: seq<T>)
    requires a != []
    ensures (a + b)[0] == a[0] && (a + b)[1..] == a[1..] + b
  {
  }
}
