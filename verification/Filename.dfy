/** Names of testcase files, <subtask>_<testcase>.in and .out, and of the objects they are stored under. */
module Filename {
  import opened Options
  import opened Text

  datatype Kind = In | Out

  /** Which file of which testcase. */
  datatype Slot = Slot(subtask: nat, testcase: nat, kind: Kind)

  function LastOf(s: string, c: char): (i: nat)
    requires c in s
    ensures i < |s| && s[i] == c && forall k :: i < k < |s| ==> s[k] != c
  {
    if s[|s| - 1] == c then |s| - 1 else LastOf(s[..|s| - 1], c)
  }

  function LowerChar(c: char): char {
    if 'A' <= c <= 'Z' then c + ' ' else c
  }

  function ToLower(s: string): string {
    seq(|s|, i requires 0 <= i < |s| => LowerChar(s[i]))
  }

  function KindOf(ext: string): Option<Kind> {
    if ToLower(ext) == "in" then Some(In) else if ToLower(ext) == "out" then Some(Out) else None
  }

  /** parseTestcaseFilename */
  function ParseName(name: string): Option<Slot> {
    if '.' !in name then None
    else
      var dot := LastOf(name, '.');
      var kind, base := KindOf(name[dot + 1..]), name[..dot];
      if kind.None? || '_' !in base then None
      else
        var u := FirstOf(base, '_');
        var subtask, testcase := Atoi(base[..u]), Atoi(base[u + 1..]);
        if subtask.None? || testcase.None? || subtask.value < 0 || testcase.value < 0 then None
        else Some(Slot(subtask.value, testcase.value, kind.value))
  }

  function Extension(kind: Kind): string {
    if kind.In? then "in" else "out"
  }

  function PrintName(s: Slot): string {
    Digits(s.subtask) + ['_'] + Digits(s.testcase) + ['.'] + Extension(s.kind)
  }

  predicate Fits(s: Slot) {
    s.subtask <= MAX_INT && s.testcase <= MAX_INT
  }

  lemma LastOfJoined(a: string, c: char, b: string)
    requires c !in b
    ensures var s := a + [c] + b; c in s && LastOf(s, c) == |a| && s[..|a|] == a && s[|a| + 1..] == b
  {
    var s := a + [c] + b;
    assert s[|a|] == c;
    assert forall k :: |a| < k < |s| ==> s[k] == b[k - |a| - 1] && b[k - |a| - 1] in b;
  }

  lemma DigitsOnly(n: nat, c: char)
    requires !IsDigit(c)
    ensures c !in Digits(n)
  {
    DigitsRead(n);
  }

  lemma ParseParts(a: string, b: string, ext: string, s: Slot)
    requires '_' !in a && '.' !in ext && KindOf(ext) == Some(s.kind)
    requires Atoi(a) == Some(s.subtask) && Atoi(b) == Some(s.testcase)
    ensures ParseName(a + ['_'] + b + ['.'] + ext) == Some(s)
  {
    LastOfJoined(a + ['_'] + b, '.', ext);
    FirstOfJoined(a, '_', b);
  }

  lemma ExtensionKind(kind: Kind)
    ensures KindOf(Extension(kind)) == Some(kind) && '.' !in Extension(kind)
  {
    assert ToLower("in") == "in" && ToLower("out") == "out";
  }

  /** The parser undoes the printer. */
  lemma ParsePrint(s: Slot)
    requires Fits(s)
    ensures ParseName(PrintName(s)) == Some(s)
  {
    DigitsOnly(s.subtask, '_');
    AtoiItoa(s.subtask);
    AtoiItoa(s.testcase);
    ExtensionKind(s.kind);
    ParseParts(Digits(s.subtask), Digits(s.testcase), Extension(s.kind), s);
  }

  /** in or out, each letter in either case. */
  predicate IsExtension(ext: string, kind: Kind) {
    match kind
    case In => |ext| == 2 && (ext[0] == 'i' || ext[0] == 'I') && (ext[1] == 'n' || ext[1] == 'N')
    case Out =>
      && |ext| == 3 && (ext[0] == 'o' || ext[0] == 'O') && (ext[1] == 'u' || ext[1] == 'U')
      && (ext[2] == 't' || ext[2] == 'T')
  }

  /** name stands for s, with its first underscore at u and its last dot at dot. */
  predicate Names(name: string, u: nat, dot: nat, s: Slot) {
    && u < dot < |name| && name[u] == '_' && name[dot] == '.' && '_' !in name[..u] && '.' !in name[dot + 1..]
    && Atoi(name[..u]) == Some(s.subtask) && Atoi(name[u + 1..dot]) == Some(s.testcase)
    && IsExtension(name[dot + 1..], s.kind)
  }

  lemma Cuts(name: string, u: nat, dot: nat)
    requires u < dot < |name|
    ensures name[..dot][..u] == name[..u] && name[..dot][u + 1..] == name[u + 1..dot]
  {
  }

  /**
   Which names are accepted: two numbers with an underscore between them and an extension in or out, in any case of
   letters; and what they stand for.
   */
  lemma ParseNameMeans(name: string, s: Slot)
    ensures ParseName(name) == Some(s) <==> exists u, dot :: Names(name, u, dot, s)
  {
    if ParseName(name) == Some(s) {
      NamesItsParts(name, s);
    }
    if exists u, dot :: Names(name, u, dot, s) {
      var u, dot :| Names(name, u, dot, s);
      PartsAreRead(name, u, dot, s);
    }
  }

  lemma NamesItsParts(name: string, s: Slot)
    requires ParseName(name) == Some(s)
    ensures exists u, dot :: Names(name, u, dot, s)
  {
    var dot := LastOf(name, '.');
    var base := name[..dot];
    var u := FirstOf(base, '_');
    BehindLast(name, '.');
    BeforeFirst(base, '_');
    KindMeans(name[dot + 1..], s.kind);
    Cuts(name, u, dot);
    assert Names(name, u, dot, s);
  }

  lemma BehindLast(s: string, c: char)
    requires c in s
    ensures c !in s[LastOf(s, c) + 1..]
  {
    var t := s[LastOf(s, c) + 1..];
    forall k | 0 <= k < |t|
      ensures t[k] != c
    {
      assert t[k] == s[LastOf(s, c) + 1 + k];
    }
  }

  lemma BeforeFirst(s: string, c: char)
    requires c in s
    ensures c !in s[..FirstOf(s, c)]
  {
  }

  lemma KindMeans(ext: string, kind: Kind)
    ensures KindOf(ext) == Some(kind) <==> IsExtension(ext, kind)
  {
    LowerIs(ext, "in");
    LowerIs(ext, "out");
  }

  lemma LowerIs(s: string, t: string)
    ensures ToLower(s) == t <==> |s| == |t| && forall i :: 0 <= i < |s| ==> LowerChar(s[i]) == t[i]
  {
    assert |ToLower(s)| == |s| && forall i :: 0 <= i < |s| ==> ToLower(s)[i] == LowerChar(s[i]);
  }

  lemma PartsAreRead(name: string, u: nat, dot: nat, s: Slot)
    requires Names(name, u, dot, s)
    ensures ParseName(name) == Some(s)
  {
    KindMeans(name[dot + 1..], s.kind);
    Cuts(name, u, dot);
    assert LastOf(name, '.') == dot;
    assert name[..dot][u] == '_';
    assert FirstOf(name[..dot], '_') == u;
  }

  /** What the parser gives always fits. */
  lemma ParsedFits(name: string)
    requires ParseName(name).Some?
    ensures Fits(ParseName(name).value)
  {
  }

  /** The name of the object a file of a problem is stored under. */
  function StorageKey(problem: int, s: Slot): string {
    "testcases/" + Itoa(problem) + "/" + Itoa(problem) + "_" + PrintName(s)
  }

  /** For example. */
  lemma KeyOfOutput()
    ensures StorageKey(12, Slot(0, 3, Out)) == "testcases/12/12_0_3.out"
  {
    assert Digits(12) == Digits(1) + [Digit(2)] == "12";
    assert Digits(0) == "0" && Digits(3) == "3";
  }

  /** Different files of a problem are stored under different names. */
  lemma KeysDiffer(problem: int, a: Slot, b: Slot)
    requires Fits(a) && Fits(b) && StorageKey(problem, a) == StorageKey(problem, b)
    ensures a == b
  {
    var prefix := "testcases/" + Itoa(problem) + "/" + Itoa(problem) + "_";
    assert StorageKey(problem, a)[|prefix|..] == PrintName(a);
    assert StorageKey(problem, b)[|prefix|..] == PrintName(b);
    ParsePrint(a);
    ParsePrint(b);
  }
}
