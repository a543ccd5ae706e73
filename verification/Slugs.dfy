/** Blog slugs: the slug of a text, and the search for one that no other post has. */
module Slugs {
  import opened Distinct
  import opened Text

  predicate IsWordChar(c: char) {
    'a' <= c <= 'z' || IsDigit(c)
  }

  /** The length of the run of word characters, or of other characters, at the start. */
  function RunLength(s: string, word: bool): (n: nat)
    ensures n <= |s|
    ensures forall i :: 0 <= i < n ==> IsWordChar(s[i]) == word
    ensures n < |s| ==> IsWordChar(s[n]) != word
  {
    if s == [] || IsWordChar(s[0]) != word then 0 else 1 + RunLength(s[1..], word)
  }

  /** The regular expression replacement: each longest run of other characters becomes one dash. */
  function Dashed(s: string): string {
    if s == [] then []
    else if IsWordChar(s[0]) then [s[0]] + Dashed(s[1..])
    else "-" + Dashed(s[RunLength(s, false)..])
  }

  function TrimDashes(s: string): string {
    if s == [] then s
    else if s[0] == '-' then TrimDashes(s[1..])
    else if s[|s| - 1] == '-' then TrimDashes(s[..|s| - 1])
    else s
  }

  function Lowered(lower: char -> char, s: string): string {
    seq(|s|, i requires 0 <= i < |s| => lower(s[i]))
  }

  /** slugify, for any mapping of characters to lower case. */
  function Slugify(lower: char -> char, s: string): string {
    TrimDashes(Dashed(Lowered(lower, TrimSpace(s))))
  }

  // ---------- What a slug is ----------

  /** The longest runs of word characters, in order. */
  function Words(s: string): seq<string>
    decreases |s|
  {
    if s == [] then []
    else
      var n := RunLength(s, IsWordChar(s[0]));
      if IsWordChar(s[0]) then [s[..n]] + Words(s[n..]) else Words(s[n..])
  }

  predicate IsWord(w: string) {
    w != [] && forall i :: 0 <= i < |w| ==> IsWordChar(w[i])
  }

  function Hyphenated(words: seq<string>): string {
    if words == [] then [] else Join(words, '-')
  }

  predicate IsSlug(s: string) {
    && (forall i :: 0 <= i < |s| ==> IsWordChar(s[i]) || s[i] == '-')
    && (s != [] ==> s[0] != '-' && s[|s| - 1] != '-')
    && (forall i, j :: 0 <= i < |s| && j == i + 1 && j < |s| ==> s[i] != '-' || s[j] != '-')
  }

  function Lead(s: string): string {
    if s != [] && !IsWordChar(s[0]) then "-" else ""
  }

  function Tail(s: string, words: seq<string>): string {
    if s != [] && words != [] && !IsWordChar(s[|s| - 1]) then "-" else ""
  }

  /** d is the hyphenated words, with at most one more dash at either end, as the ends of s tell. */
  predicate DashesAround(s: string, d: string, words: seq<string>) {
    d == Lead(s) + Hyphenated(words) + Tail(s, words)
  }

  lemma {:induction false} DashedRun(s: string, n: nat)
    requires n <= |s| && forall i :: 0 <= i < n ==> IsWordChar(s[i])
    ensures Dashed(s) == s[..n] + Dashed(s[n..])
    decreases n
  {
    if n > 0 {
      DashedRun(s[1..], n - 1);
      assert s[1..][n - 1..] == s[n..];
      assert s[..n] == [s[0]] + s[1..][..n - 1];
    } else {
      assert s[n..] == s;
    }
  }

  lemma {:induction false} DashedIsHyphenated(s: string)
    ensures DashesAround(s, Dashed(s), Words(s))
    decreases |s|
  {
    if s != [] {
      var word := IsWordChar(s[0]);
      var n := RunLength(s, word);
      DashedIsHyphenated(s[n..]);
      if word {
        DashedRun(s, n);
        LastOfWordless(s[n..]);
        WordFirst(s, n, s[n..], Dashed(s[n..]), Words(s[n..]));
      } else {
        OthersFirst(s, n, s[n..], Dashed(s[n..]), Words(s[n..]));
      }
    }
  }

  lemma OthersFirst(s: string, n: nat, rest: string, d: string, words: seq<string>)
    requires s != [] && !IsWordChar(s[0]) && n == RunLength(s, false) && rest == s[n..]
    requires DashesAround(rest, d, words) && (rest == [] ==> words == [])
    ensures DashesAround(s, "-" + d, words)
  {
    assert rest != [] ==> s[|s| - 1] == rest[|rest| - 1];
    assert Lead(rest) == "" && Tail(s, words) == Tail(rest, words);
    Reassociate("-", "", Hyphenated(words), Tail(rest, words));
  }

  lemma Reassociate(a: string, b: string, c: string, d: string)
    ensures a + (b + c + d) == (a + b + c) + d
  {
  }

  lemma WordFirst(s: string, n: nat, rest: string, d: string, words: seq<string>)
    requires s != [] && IsWordChar(s[0]) && n == RunLength(s, true) && rest == s[n..]
    requires DashesAround(rest, d, words) && (rest == [] ==> words == [])
    requires rest != [] && words == [] ==> !IsWordChar(rest[|rest| - 1])
    ensures DashesAround(s, s[..n] + d, [s[..n]] + words)
  {
    if rest == [] {
      assert d == "" && s[..n] == s && s[|s| - 1] == s[n - 1];
    } else {
      WordBefore(s, s[..n], rest, d, words);
    }
  }

  lemma WordBefore(s: string, w: string, rest: string, d: string, words: seq<string>)
    requires w != [] && IsWordChar(w[0]) && s == w + rest && rest != [] && !IsWordChar(rest[0])
    requires DashesAround(rest, d, words) && (words == [] ==> !IsWordChar(rest[|rest| - 1]))
    ensures DashesAround(s, w + d, [w] + words)
  {
    assert s[0] == w[0] && s[|s| - 1] == rest[|rest| - 1];
    HyphenatedMore(w, words);
    Reassociate(w, "-", Hyphenated(words), Tail(rest, words));
    if words == [] {
      assert d == "-" && Tail(s, [w]) == "-";
      assert [w] + words == [w];
    } else {
      assert Tail(s, [w] + words) == Tail(rest, words);
    }
  }

  lemma LastOfWordless(s: string)
    ensures s != [] && Words(s) == [] ==> !IsWordChar(s[|s| - 1])
  {
    if Words(s) == [] {
      NoWords(s);
    }
  }

  lemma HyphenatedMore(w: string, words: seq<string>)
    ensures Hyphenated([w] + words) == if words == [] then w else w + "-" + Hyphenated(words)
  {
    if words != [] {
      JoinMore(w, words, '-');
    }
  }

  lemma {:induction false} WordsAreWords(s: string)
    ensures forall i :: 0 <= i < |Words(s)| ==> IsWord(Words(s)[i])
    decreases |s|
  {
    if s != [] {
      var n := RunLength(s, IsWordChar(s[0]));
      WordsAreWords(s[n..]);
      if IsWordChar(s[0]) {
        assert IsWord(s[..n]);
      }
    }
  }

  lemma {:induction false} NoWords(s: string)
    ensures Words(s) == [] <==> forall i :: 0 <= i < |s| ==> !IsWordChar(s[i])
    decreases |s|
  {
    if s != [] && !IsWordChar(s[0]) {
      var n := RunLength(s, false);
      NoWords(s[n..]);
      assert s == s[..n] + s[n..];
    }
  }

  lemma {:induction false} HyphenatedIsSlug(words: seq<string>)
    requires forall i :: 0 <= i < |words| ==> IsWord(words[i])
    ensures IsSlug(Hyphenated(words)) && (words != [] ==> Hyphenated(words) != [])
    decreases |words|
  {
    if words != [] {
      assert IsWord(words[0]);
      if |words| > 1 {
        HyphenatedIsSlug(words[1..]);
        WordAndSlug(words[0], Hyphenated(words[1..]));
        assert words == [words[0]] + words[1..];
        JoinMore(words[0], words[1..], '-');
      }
    }
  }

  lemma WordAndSlug(w: string, s: string)
    requires IsWord(w) && IsSlug(s) && s != []
    ensures IsSlug(w + ['-'] + s)
  {
    var t := w + ['-'] + s;
    forall i | 0 <= i < |t|
      ensures IsWordChar(t[i]) || t[i] == '-'
      ensures i + 1 < |t| ==> t[i] != '-' || t[i + 1] != '-'
    {
      if i < |w| {
        assert IsWordChar(t[i]);
      } else if i > |w| {
        assert t[i] == s[i - |w| - 1];
      }
    }
  }

  lemma TrimEnds(s: string, lead: string, tail: string)
    requires IsSlug(s) && (lead == "" || lead == "-") && (tail == "" || (tail == "-" && s != []))
    ensures TrimDashes(lead + s + tail) == s
  {
    var t := s + tail;
    assert TrimDashes(t) == s by {
      if tail != [] {
        assert t[0] == s[0] && t[..|t| - 1] == s;
      } else {
        assert t == s;
      }
    }
    if lead != [] {
      assert (lead + s + tail)[1..] == t;
    } else {
      assert lead + s + tail == t;
    }
  }

  /** The slug of a text is its words in lower case, joined by single dashes, and nothing else. */
  lemma SlugIsItsWords(lower: char -> char, s: string)
    ensures var words := Words(Lowered(lower, TrimSpace(s)));
      Slugify(lower, s) == Hyphenated(words) && IsSlug(Slugify(lower, s))
  {
    var t := Lowered(lower, TrimSpace(s));
    DashedIsHyphenated(t);
    WordsAreWords(t);
    HyphenatedIsSlug(Words(t));
    TrimEnds(Hyphenated(Words(t)), Lead(t), Tail(t, Words(t)));
  }

  /** One word becomes that word in lower case, where lower case means the letters a to z and the digits. */
  lemma WordIsLowered(lower: char -> char, s: string)
    requires s != "" && forall i :: 0 <= i < |s| ==>
      !IsSpace(s[i]) && ('a' <= lower(s[i]) <= 'z' || '0' <= lower(s[i]) <= '9')
    ensures |Slugify(lower, s)| == |s| && forall i :: 0 <= i < |s| ==> Slugify(lower, s)[i] == lower(s[i])
  {
    NoSpaces(s);
    LowersWord(lower, s);
    DashedSlug(Lowered(lower, s));
  }

  lemma LowersWord(lower: char -> char, s: string)
    requires s != "" && forall i :: 0 <= i < |s| ==> 'a' <= lower(s[i]) <= 'z' || '0' <= lower(s[i]) <= '9'
    ensures var t := Lowered(lower, s);
      && IsWord(t) && '-' !in t && TrimDashes(t) == t
      && |t| == |s| && forall i :: 0 <= i < |s| ==> t[i] == lower(s[i])
  {
  }

  /** A slug has no other characters than these. */
  lemma SlugChars(lower: char -> char, s: string)
    ensures forall c :: c in Slugify(lower, s) ==> 'a' <= c <= 'z' || '0' <= c <= '9' || c == '-'
  {
    SlugIsItsWords(lower, s);
  }

  lemma {:induction false} DashedSlug(s: string)
    requires forall i :: 0 <= i < |s| ==> IsWordChar(s[i]) || s[i] == '-'
    requires forall i, j :: 0 <= i < |s| && j == i + 1 && j < |s| ==> s[i] != '-' || s[j] != '-'
    ensures Dashed(s) == s
    decreases |s|
  {
    if s != [] {
      DashedSlug(s[1..]);
      if !IsWordChar(s[0]) {
        assert |s| > 1 ==> s[1] != '-';
        assert RunLength(s, false) == 1;
      }
    }
  }

  lemma {:induction false} NoSpaces(s: string)
    requires forall i :: 0 <= i < |s| ==> !IsSpace(s[i])
    ensures TrimSpace(s) == s
  {
  }

  /** A slug is its own slug, so slugify is idempotent. */
  lemma SlugIsFixed(lower: char -> char, s: string)
    requires IsSlug(s) && forall c :: IsWordChar(c) || c == '-' ==> lower(c) == c
    ensures Slugify(lower, s) == s
  {
    NoSpaces(s);
    assert Lowered(lower, s) == s;
    DashedSlug(s);
  }

  // ---------- A slug no other post has ----------

  datatype Result = Ok(slug: string) | StoreFailed | Exhausted

  /** The slug tried in round i; the first one is the base itself. */
  function Candidate(base: string, i: nat): string
    requires i >= 2
  {
    if i == 2 then base else base + "-" + Itoa(i - 1)
  }

  function Base(lower: char -> char, input: string, title: string): string {
    if Slugify(lower, input) == "" then Slugify(lower, title) else Slugify(lower, input)
  }

  /** The store answers in the rounds before round i. */
  ghost predicate Answers(fails: nat -> bool, i: nat) {
    forall j: nat :: 2 <= j < i ==> !fails(j)
  }

  predicate AllTaken(base: string, taken: set<string>, i: nat) {
    forall j :: 2 <= j < i ==> Candidate(base, j) in taken
  }

  predicate IsFirstFree(base: string, taken: set<string>, i: nat, slug: string)
    requires i >= 2
  {
    slug == Candidate(base, i) && AllTaken(base, taken, i)
  }

  /**
   What the search promises: taken are the slugs of the other posts, fails says in which rounds the store cannot
   tell.
   */
  ghost predicate Found(base: string, taken: set<string>, fails: nat -> bool, r: Result) {
    match r
    case Ok(slug) =>
      slug !in taken && exists i :: 2 <= i <= 100 && IsFirstFree(base, taken, i, slug) && Answers(fails, i + 1)
    case StoreFailed => exists i: nat :: 2 <= i <= 100 && fails(i) && Answers(fails, i) && AllTaken(base, taken, i)
    case Exhausted => Answers(fails, 101) && AllTaken(base, taken, 101)
  }

  /** Exactly one result is possible. */
  lemma FoundOnce(base: string, taken: set<string>, fails: nat -> bool, r: Result, q: Result)
    requires Found(base, taken, fails, r) && Found(base, taken, fails, q)
    ensures r == q
  {
    var i := RoundOf(base, taken, fails, r);
    var j := RoundOf(base, taken, fails, q);
    assert i == j;
  }

  /** The round in which the search ends. */
  lemma RoundOf(base: string, taken: set<string>, fails: nat -> bool, r: Result) returns (i: nat)
    requires Found(base, taken, fails, r)
    ensures 2 <= i <= 101 && Answers(fails, i) && AllTaken(base, taken, i)
    ensures i == 101 <==> r.Exhausted?
    ensures i <= 100 ==> r == if fails(i) then StoreFailed else Ok(Candidate(base, i))
    ensures i <= 100 && !fails(i) ==> Candidate(base, i) !in taken
  {
    match r
    case Ok(slug) => i :| 2 <= i <= 100 && IsFirstFree(base, taken, i, slug) && Answers(fails, i + 1);
    case StoreFailed => i :| 2 <= i <= 100 && fails(i) && Answers(fails, i) && AllTaken(base, taken, i);
    case Exhausted => i := 101;
  }

  method UniqueSlug(lower: char -> char, input: string, title: string, taken: set<string>, fails: nat -> bool)
    returns (r: Result)
    ensures Found(Base(lower, input, title), taken, fails, r)
  {
    var base := Slugify(lower, input);
    if base == "" {
      base := Slugify(lower, title);
    }
    assert base == Base(lower, input, title);
    var slug := base;
    for i := 2 to 101
      invariant slug == Candidate(base, i)
      invariant AllTaken(base, taken, i) && Answers(fails, i)
    {
      if fails(i) {
        return StoreFailed;
      }
      if slug !in taken {
        assert IsFirstFree(base, taken, i, slug);
        return Ok(slug);
      }
      slug := base + "-" + Itoa(i);
    }
    return Exhausted;
  }

  lemma CandidatesDiffer(base: string, i: nat, j: nat)
    requires 2 <= i < j
    ensures Candidate(base, i) != Candidate(base, j)
  {
    var b := "-" + Itoa(j - 1);
    assert Candidate(base, j) == base + b;
    if i == 2 {
      assert |base + b| > |base|;
    } else {
      var a := "-" + Itoa(i - 1);
      assert Candidate(base, i) == base + a;
      if base + a == base + b {
        assert a == (base + a)[|base|..] == (base + b)[|base|..] == b;
        assert Itoa(i - 1) == a[1..] == b[1..] == Itoa(j - 1);
        DigitsInjective(i - 1, j - 1);
      }
    }
  }

  function Candidates(base: string, n: nat): (c: seq<string>)
    ensures |c| == n && forall k :: 0 <= k < n ==> c[k] == Candidate(base, k + 2)
  {
    if n == 0 then [] else Candidates(base, n - 1) + [Candidate(base, n + 1)]
  }

  /** The search runs out of candidates only when at least 99 other posts exist. */
  lemma ExhaustedNeeds99Posts(base: string, taken: set<string>)
    requires AllTaken(base, taken, 101)
    ensures |taken| >= 99
  {
    var c := Candidates(base, 99);
    forall k, l | 0 <= k < l < 99
      ensures c[k] != c[l]
    {
      CandidatesDiffer(base, k + 2, l + 2);
    }
    NoRepeatsCounts(c);
    forall x | x in Elems(c)
      ensures x in taken
    {
      var k :| 0 <= k < 99 && c[k] == x;
      assert c[k] == Candidate(base, k + 2);
    }
    Smaller(Elems(c), taken);
  }

  lemma Smaller<T>(a: set<T>, b: set<T>)
    requires a <= b
    ensures |a| <= |b|
  {
    assert b == a + (b - a);
  }

  /** With fewer than 99 other posts and a store that answers, the search finds a slug. */
  lemma SlugIsFound(base: string, taken: set<string>, fails: nat -> bool, r: Result)
    requires Found(base, taken, fails, r) && |taken| < 99 && forall i: nat :: !fails(i)
    ensures r.Ok? && r.slug !in taken
  {
    if r.Exhausted? {
      ExhaustedNeeds99Posts(base, taken);
    }
  }

  lemma SlugAndWord(s: string, w: string)
    requires IsWord(w) && IsSlug(s) && s != []
    ensures IsSlug(s + ['-'] + w)
  {
    var t := s + ['-'] + w;
    forall i | 0 <= i < |t|
      ensures IsWordChar(t[i]) || t[i] == '-'
      ensures i + 1 < |t| ==> t[i] != '-' || t[i + 1] != '-'
    {
      if i > |s| {
        assert t[i] == w[i - |s| - 1];
      } else if i < |s| {
        assert t[i] == s[i];
      }
    }
    assert t[|t| - 1] == w[|w| - 1];
  }

  /** Every candidate is a proper slug, or none is: those of the empty base are "" and texts starting with a dash. */
  lemma CandidateIsSlug(base: string, i: nat)
    requires i >= 2 && IsSlug(base)
    ensures IsSlug(Candidate(base, i)) && Candidate(base, i) != "" <==> base != ""
  {
    if i > 2 {
      DigitsRead(i - 1);
      var digits := Itoa(i - 1);
      assert IsWord(digits) by {
        assert forall k :: 0 <= k < |digits| ==> IsDigit(digits[k]);
      }
      var s := Candidate(base, i);
      assert s == base + ['-'] + digits;
      if base == "" {
        assert s[0] == '-';
      } else {
        SlugAndWord(base, digits);
      }
    }
  }

  predicate HasWord(lower: char -> char, s: string) {
    Words(Lowered(lower, TrimSpace(s))) != []
  }

  lemma SlugOfWords(lower: char -> char, s: string)
    ensures Slugify(lower, s) != "" <==> HasWord(lower, s)
  {
    var words := Words(Lowered(lower, TrimSpace(s)));
    SlugIsItsWords(lower, s);
    WordsAreWords(Lowered(lower, TrimSpace(s)));
    HyphenatedIsSlug(words);
  }

  /** The slug that is found is a proper one exactly when the input or the title has a word. */
  lemma FoundIsSlug(
      lower: char -> char, input: string, title: string, taken: set<string>, fails: nat -> bool, r: Result)
    requires Found(Base(lower, input, title), taken, fails, r) && r.Ok?
    ensures IsSlug(r.slug) && r.slug != "" <==> HasWord(lower, input) || HasWord(lower, title)
  {
    SlugOfWords(lower, input);
    SlugOfWords(lower, title);
    SlugIsItsWords(lower, input);
    SlugIsItsWords(lower, title);
    var base := Base(lower, input, title);
    var i :| 2 <= i <= 100 && IsFirstFree(base, taken, i, r.slug);
    CandidateIsSlug(base, i);
  }

  /** A title of punctuation gives the empty slug to the first such post and "-2" to the second one. */
  lemma WordlessTitle(lower: char -> char, fails: nat -> bool)
    requires lower('!') == '!' && !fails(2) && !fails(3)
    ensures !HasWord(lower, "!!!") && !HasWord(lower, "")
    ensures Found(Base(lower, "", "!!!"), {}, fails, Ok(""))
    ensures Found(Base(lower, "", "!!!"), {""}, fails, Ok("-2"))
  {
    assert TrimSpace("!!!") == "!!!" && TrimSpace("") == "";
    NoWords(Lowered(lower, "!!!"));
    SlugOfWords(lower, "");
    SlugOfWords(lower, "!!!");
    assert Digits(2) == "2";
    assert IsFirstFree("", {}, 2, "") && IsFirstFree("", {""}, 3, "-2");
  }
}
