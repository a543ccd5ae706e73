/**
 The parts of Go's strings and strconv packages the judge uses: splitting and joining, trimming, decimal numbers,
 and that printed numbers and joined pieces read back.
 */
module Text {
  import opened Options

  // ---------- Splitting at a separator ----------

  function FirstOf(s: string, c: char): (i: nat)
    requires c in s
    ensures i < |s| && s[i] == c && forall k :: 0 <= k < i ==> s[k] != c
  {
    if s[0] == c then 0
    else
      FirstOf(s[1..], c) + 1
  }

  /** strings.Split: n separators give n + 1 pieces, some of them possibly empty. */
  function Split(s: string, c: char): (pieces: seq<string>)
    ensures pieces != []
    ensures forall i :: 0 <= i < |pieces| ==> c !in pieces[i]
  {
    if c !in s then [s]
    else
      var i := FirstOf(s, c);
      [s[..i]] + Split(s[i + 1..], c)
  }

  function Join(pieces: seq<string>, c: char): string
    requires pieces != []
  {
    if |pieces| == 1 then pieces[0] else pieces[0] + [c] + Join(pieces[1..], c)
  }

  lemma JoinMore(piece: string, pieces: seq<string>, c: char)
    requires pieces != []
    ensures Join([piece] + pieces, c) == piece + [c] + Join(pieces, c)
  {
    assert ([piece] + pieces)[1..] == pieces;
  }

  lemma {:induction false} JoinSplit(s: string, c: char)
    ensures Join(Split(s, c), c) == s
    decreases |s|
  {
    if c in s {
      var i := FirstOf(s, c);
      var rest := s[i + 1..];
      JoinSplit(rest, c);
      JoinMore(s[..i], Split(rest, c), c);
      assert Split(s, c) == [s[..i]] + Split(rest, c);
      assert s == s[..i] + [c] + rest;
    }
  }

  /** The first occurrence of c in a text a + [c] + b, when a has none. */
  lemma FirstOfJoined(a: string, c: char, b: string)
    requires c !in a
    ensures var s := a + [c] + b; c in s && FirstOf(s, c) == |a| && s[..|a|] == a && s[|a| + 1..] == b
  {
    var s := a + [c] + b;
    assert s[|a|] == c;
    var i := FirstOf(s, c);
    assert forall k :: 0 <= k < |a| ==> s[k] == a[k] && a[k] in a;
    assert s[|a|] == c;
  }

  lemma SplitMore(piece: string, rest: string, c: char)
    requires c !in piece
    ensures Split(piece + [c] + rest, c) == [piece] + Split(rest, c)
  {
    FirstOfJoined(piece, c, rest);
  }

  lemma {:induction false} SplitJoin(pieces: seq<string>, c: char)
    requires pieces != [] && forall i :: 0 <= i < |pieces| ==> c !in pieces[i]
    ensures Split(Join(pieces, c), c) == pieces
    decreases |pieces|
  {
    if |pieces| > 1 {
      SplitJoin(pieces[1..], c);
      SplitMore(pieces[0], Join(pieces[1..], c), c);
      assert pieces == [pieces[0]] + pieces[1..];
    }
  }

  // ---------- Trimming ----------

  /** unicode.IsSpace below U+0100. */
  predicate IsSpace(c: char) {
    c == ' ' || c == '\t' || c == '\n' || c == '\r' || c == '\U{0b}' || c == '\U{0c}' || c == '\U{85}' || c == '\U{a0}'
  }

  function TrimSpace(s: string): string {
    if s == [] then s
    else if IsSpace(s[0]) then TrimSpace(s[1..])
    else if IsSpace(s[|s| - 1]) then TrimSpace(s[..|s| - 1])
    else s
  }

  predicate AllSpace(s: string) {
    forall k :: 0 <= k < |s| ==> IsSpace(s[k])
  }

  /** What is dropped in front of t and behind it is white space, and t has none at its ends. */
  predicate TrimsTo(s: string, front: string, t: string, back: string) {
    && s == front + t + back && AllSpace(front) && AllSpace(back)
    && (t != [] ==> !IsSpace(t[0]) && !IsSpace(t[|t| - 1]))
  }

  lemma {:induction false} TrimSpaceMeans(s: string)
    ensures exists front, back :: TrimsTo(s, front, TrimSpace(s), back)
    decreases |s|
  {
    var t := TrimSpace(s);
    if s == [] || !(IsSpace(s[0]) || IsSpace(s[|s| - 1])) {
      assert t == s == [] + s + [];
      assert TrimsTo(s, [], t, []);
    } else if IsSpace(s[0]) {
      TrimSpaceMeans(s[1..]);
      var front, back :| TrimsTo(s[1..], front, t, back);
      TrimMore(s, s[..1], front, t, back, []);
    } else {
      TrimSpaceMeans(s[..|s| - 1]);
      var front, back :| TrimsTo(s[..|s| - 1], front, t, back);
      TrimMore(s, [], front, t, back, s[|s| - 1..]);
    }
  }

  lemma TrimMore(s: string, first: string, front: string, t: string, back: string, last: string)
    requires AllSpace(first) && AllSpace(last)
    requires s == first + (front + t + back) + last && TrimsTo(front + t + back, front, t, back)
    ensures TrimsTo(s, first + front, t, back + last)
  {
    assert s == (first + front) + t + (back + last);
  }

  /** Blanks, tabs and line ends around a text are dropped, and no printing character is. */
  lemma {:induction false} TrimsAround(front: string, t: string, back: string)
    requires forall i :: 0 <= i < |front| ==> front[i] in " \t\r\n"
    requires forall i :: 0 <= i < |back| ==> back[i] in " \t\r\n"
    requires t != "" && '!' <= t[0] <= '~' && '!' <= t[|t| - 1] <= '~'
    ensures TrimSpace(front + t + back) == t
    decreases |front| + |back|
  {
    var s := front + t + back;
    if front != [] {
      TrimsAround(front[1..], t, back);
      assert s[0] == front[0] && s[1..] == front[1..] + t + back;
    } else if back != [] {
      var n := |back| - 1;
      TrimsAround(front, t, back[..n]);
      assert s[0] == t[0] && s[|s| - 1] == back[n] && s[..|s| - 1] == front + t + back[..n];
    } else {
      assert s == t;
    }
  }

  // ---------- Decimal numbers ----------

  predicate IsDigit(c: char) {
    '0' <= c <= '9'
  }

  predicate AllDigits(s: string) {
    forall i :: 0 <= i < |s| ==> IsDigit(s[i])
  }

  function Digit(d: nat): (c: char)
    requires d < 10
    ensures IsDigit(c) && c as int - '0' as int == d
  {
    '0' + d as char
  }

  function Digits(n: nat): string {
    if n < 10 then [Digit(n)] else Digits(n / 10) + [Digit(n % 10)]
  }

  function Itoa(n: int): string {
    if n < 0 then "-" + Digits(-n) else Digits(n)
  }

  function Value(s: string): nat
    requires AllDigits(s)
  {
    if s == [] then 0 else 10 * Value(s[..|s| - 1]) + (s[|s| - 1] as int - '0' as int)
  }

  const MAX_INT := 0x7fff_ffff_ffff_ffff

  function InRange(n: int): Option<int> {
    if -MAX_INT - 1 <= n <= MAX_INT then Some(n) else None
  }

  /** strconv.Atoi on a 64-bit machine: an optional sign, at least one digit, and a value that fits. */
  function Atoi(s: string): Option<int> {
    var digits := if s != [] && (s[0] == '+' || s[0] == '-') then s[1..] else s;
    if digits == [] || !AllDigits(digits) then None
    else if s[0] == '-' then InRange(-(Value(digits) as int))
    else InRange(Value(digits))
  }

  /** Which texts are numbers: digits, behind at most one sign, with a value that fits. */
  lemma AtoiMeans(s: string)
    ensures Atoi(s).Some? <==>
      || (s != [] && AllDigits(s) && Value(s) < 0x8000_0000_0000_0000)
      || (|s| > 1 && AllDigits(s[1..]) && ((s[0] == '+' && Value(s[1..]) < 0x8000_0000_0000_0000)
                                           || (s[0] == '-' && Value(s[1..]) <= 0x8000_0000_0000_0000)))
    ensures Atoi(s).Some? ==> Atoi(s).value == if s[0] == '-' then -(Value(s[1..]) as int)
                                               else if s[0] == '+' then Value(s[1..]) else Value(s)
  {
    assert !IsDigit('+') && !IsDigit('-');
  }

  /** Leading zeros do not change a value. */
  lemma {:induction false} LeadingZero(s: string)
    requires AllDigits(s)
    ensures AllDigits(['0'] + s) && Value(['0'] + s) == Value(s)
    decreases |s|
  {
    if s != [] {
      var n := |s| - 1;
      LeadingZero(s[..n]);
      assert (['0'] + s)[..n + 1] == ['0'] + s[..n];
    }
  }

  lemma {:induction false} DigitsRead(n: nat)
    ensures Digits(n) != [] && AllDigits(Digits(n)) && Value(Digits(n)) == n
    decreases n
  {
    if n < 10 {
      assert Digits(n)[..0] == [];
    } else {
      DigitsRead(n / 10);
      assert Digits(n)[..|Digits(n)| - 1] == Digits(n / 10);
    }
  }

  lemma DigitsInjective(m: nat, n: nat)
    requires Digits(m) == Digits(n)
    ensures m == n
  {
    DigitsRead(m);
    DigitsRead(n);
  }

  /** A printed number reads back. */
  lemma AtoiItoa(n: int)
    requires -MAX_INT - 1 <= n <= MAX_INT
    ensures Atoi(Itoa(n)) == Some(n)
  {
    DigitsRead(if n < 0 then -n else n);
    var s := Itoa(n);
    if n < 0 {
      assert s[1..] == Digits(-n);
    } else {
      assert IsDigit(s[0]);
    }
  }
}
