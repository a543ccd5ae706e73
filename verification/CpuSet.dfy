/**
 CPU sets such as "0-3,8": what the parser makes of any text, that one malformed part gives no CPUs at all, and that
 printing a set is undone by parsing it.
 */
module CpuSet {
  import opened Options
  import opened Text

  function Span(first: int, last: int): (r: seq<string>)
    ensures |r| == if first <= last then last - first + 1 else 0
    ensures forall i :: 0 <= i < |r| ==> r[i] == Itoa(first + i)
    decreases last - first + 1
  {
    if first > last then [] else Span(first, last - 1) + [Itoa(last)]
  }

  /** The CPUs of one part of the set; None when it is malformed. */
  function PartCpus(part: string): Option<seq<string>> {
    var p := TrimSpace(part);
    if p == "" then Some([])
    else if '-' in p then
      var i := FirstOf(p, '-');
      var first, last := Atoi(TrimSpace(p[..i])), Atoi(TrimSpace(p[i + 1..]));
      if first.None? || last.None? || first.value > last.value then None else Some(Span(first.value, last.value))
    else if Atoi(p).None? then None
    else Some([p])
  }

  function AllCpus(parts: seq<string>): Option<seq<string>> {
    if parts == [] then Some([])
    else
      var before, last := AllCpus(parts[..|parts| - 1]), PartCpus(parts[|parts| - 1]);
      if before.None? || last.None? then None else Some(before.value + last.value)
  }

  /** The CPUs of a set; a malformed set, like an empty one, has none. */
  function Cpus(value: string): seq<string> {
    var v := TrimSpace(value);
    if v == "" then []
    else
      match AllCpus(Split(v, ','))
      case Some(l) => l
      case None => []
  }

  method ParseCPUSet(value: string) returns (out: seq<string>)
    ensures out == Cpus(value)
  {
    var v := TrimSpace(value);
    if v == "" {
      return [];
    }
    var parts := Split(v, ',');
    out := [];
    for n := 0 to |parts|
      invariant AllCpus(parts[..n]) == Some(out)
    {
      assert parts[..n + 1][..n] == parts[..n];
      var more := ParsePart(parts[n]);
      if more.None? {
        MalformedPart(parts, n);
        return [];
      }
      out := out + more.value;
    }
    assert parts[..|parts|] == parts;
  }

  /** The body of the loop over the parts. */
  method ParsePart(part: string) returns (r: Option<seq<string>>)
    ensures r == PartCpus(part)
  {
    var p := TrimSpace(part);
    if p == "" {
      return Some([]);
    }
    if '-' in p {
      var i := FirstOf(p, '-');
      var first, last := Atoi(TrimSpace(p[..i])), Atoi(TrimSpace(p[i + 1..]));
      if first.None? || last.None? || first.value > last.value {
        return None;
      }
      var out := Numbers(first.value, last.value);
      return Some(out);
    }
    if Atoi(p).None? {
      return None;
    }
    return Some([p]);
  }

  method Numbers(first: int, last: int) returns (out: seq<string>)
    ensures out == Span(first, last)
  {
    out := [];
    var i := first;
    while i <= last
      invariant first <= i && (i <= last + 1 || i == first) && out == Span(first, i - 1)
      decreases last - i
    {
      out := out + [Itoa(i)];
      i := i + 1;
    }
  }

  /** One malformed part spoils the whole set. */
  lemma {:induction false} MalformedPart(parts: seq<string>, n: nat)
    requires n < |parts| && PartCpus(parts[n]).None?
    ensures AllCpus(parts).None?
    decreases |parts|
  {
    if n < |parts| - 1 {
      MalformedPart(parts[..|parts| - 1], n);
    }
  }

  // ---------- Printing ----------

  datatype Item = One(n: nat) | Range(first: nat, last: nat)

  /** The loop over a range that ends at the largest integer does not end. */
  predicate Printable(item: Item) {
    match item
    case One(n) => n <= MAX_INT
    case Range(first, last) => first <= last < MAX_INT
  }

  function PrintItem(item: Item): string {
    match item
    case One(n) => Itoa(n)
    case Range(first, last) => Itoa(first) + "-" + Itoa(last)
  }

  function ItemCpus(item: Item): seq<string> {
    match item
    case One(n) => [Itoa(n)]
    case Range(first, last) => Span(first, last)
  }

  function PrintAll(items: seq<Item>): seq<string> {
    seq(|items|, i requires 0 <= i < |items| => PrintItem(items[i]))
  }

  function Expand(items: seq<Item>): seq<string> {
    if items == [] then [] else Expand(items[..|items| - 1]) + ItemCpus(items[|items| - 1])
  }

  lemma NothingToTrim(s: string)
    requires s != [] && !IsSpace(s[0]) && !IsSpace(s[|s| - 1])
    ensures TrimSpace(s) == s
  {
  }

  lemma NumberText(n: nat)
    ensures var s := Itoa(n); s != [] && AllDigits(s) && TrimSpace(s) == s && '-' !in s && ',' !in s
  {
    DigitsRead(n);
    assert AllDigits(Itoa(n));
    NothingToTrim(Itoa(n));
  }

  /** A text that trimming and splitting at commas leave alone. */
  predicate Tidy(s: string) {
    s != [] && IsDigit(s[0]) && IsDigit(s[|s| - 1]) && ',' !in s
  }

  lemma RangeCpus(a: string, b: string, first: nat, last: nat)
    requires Atoi(a) == Some(first) && Atoi(b) == Some(last) && first <= last
    requires TrimSpace(a) == a && TrimSpace(b) == b && '-' !in a
    requires TrimSpace(a + ['-'] + b) == a + ['-'] + b
    ensures PartCpus(a + ['-'] + b) == Some(Span(first, last))
  {
    FirstOfJoined(a, '-', b);
  }

  lemma TidyRange(a: string, b: string)
    requires Tidy(a) && Tidy(b)
    ensures Tidy(a + ['-'] + b)
  {
    var s := a + ['-'] + b;
    assert s[0] == a[0] && s[|s| - 1] == b[|b| - 1];
  }

  lemma RangeText(first: nat, last: nat)
    requires first <= last <= MAX_INT
    ensures var s := PrintItem(Range(first, last)); Tidy(s) && PartCpus(s) == Some(Span(first, last))
  {
    var a, b := Itoa(first), Itoa(last);
    NumberText(first);
    NumberText(last);
    TidyRange(a, b);
    NothingToTrim(a + ['-'] + b);
    AtoiItoa(first);
    AtoiItoa(last);
    RangeCpus(a, b, first, last);
  }

  lemma ItemText(item: Item)
    requires Printable(item)
    ensures Tidy(PrintItem(item)) && PartCpus(PrintItem(item)) == Some(ItemCpus(item))
  {
    match item
    case One(n) =>
      NumberText(n);
      AtoiItoa(n);
    case Range(first, last) => RangeText(first, last);
  }

  lemma OneMorePart(parts: seq<string>, part: string, cpus: seq<string>, more: seq<string>)
    requires AllCpus(parts) == Some(cpus) && PartCpus(part) == Some(more)
    ensures AllCpus(parts + [part]) == Some(cpus + more)
  {
    assert (parts + [part])[..|parts|] == parts;
  }

  lemma ItemParses(item: Item)
    requires Printable(item)
    ensures PartCpus(PrintItem(item)) == Some(ItemCpus(item))
  {
    ItemText(item);
  }

  lemma PrintMore(items: seq<Item>)
    requires items != []
    ensures PrintAll(items) == PrintAll(items[..|items| - 1]) + [PrintItem(items[|items| - 1])]
  {
  }

  lemma {:induction false} AllItems(items: seq<Item>)
    requires forall i :: 0 <= i < |items| ==> Printable(items[i])
    ensures AllCpus(PrintAll(items)) == Some(Expand(items))
    decreases |items|
  {
    if items != [] {
      var n := |items| - 1;
      AllItems(items[..n]);
      ItemParses(items[n]);
      PrintMore(items);
      OneMorePart(PrintAll(items[..n]), PrintItem(items[n]), Expand(items[..n]), ItemCpus(items[n]));
    }
  }

  lemma {:induction false} JoinEnds(pieces: seq<string>)
    requires pieces != [] && forall i :: 0 <= i < |pieces| ==> Tidy(pieces[i])
    ensures var s := Join(pieces, ','); s != [] && IsDigit(s[0]) && IsDigit(s[|s| - 1])
    decreases |pieces|
  {
    assert Tidy(pieces[0]);
    if |pieces| > 1 {
      JoinEnds(pieces[1..]);
    }
  }

  /** A printed CPU set parses to exactly its CPUs, in order. */
  lemma ParsePrint(items: seq<Item>)
    requires items != [] && forall i :: 0 <= i < |items| ==> Printable(items[i])
    ensures Cpus(Join(PrintAll(items), ',')) == Expand(items)
  {
    var pieces := PrintAll(items);
    forall i | 0 <= i < |items|
      ensures Tidy(pieces[i])
    {
      ItemText(items[i]);
    }
    CpusOfPieces(pieces);
    AllItems(items);
  }

  lemma CpusOfPieces(pieces: seq<string>)
    requires pieces != [] && forall i :: 0 <= i < |pieces| ==> Tidy(pieces[i])
    ensures Cpus(Join(pieces, ',')) == match AllCpus(pieces) case Some(l) => l case None => []
  {
    JoinTrimmed(pieces);
    TidySplit(pieces);
    CpusOfTrimmed(Join(pieces, ','), pieces);
  }

  lemma JoinTrimmed(pieces: seq<string>)
    requires pieces != [] && forall i :: 0 <= i < |pieces| ==> Tidy(pieces[i])
    ensures var v := Join(pieces, ','); v != "" && TrimSpace(v) == v
  {
    JoinEnds(pieces);
    DigitEnds(Join(pieces, ','));
  }

  lemma DigitEnds(s: string)
    requires s != [] && IsDigit(s[0]) && IsDigit(s[|s| - 1])
    ensures TrimSpace(s) == s
  {
    NothingToTrim(s);
  }

  lemma TidySplit(pieces: seq<string>)
    requires pieces != [] && forall i :: 0 <= i < |pieces| ==> Tidy(pieces[i])
    ensures Split(Join(pieces, ','), ',') == pieces
  {
    forall i | 0 <= i < |pieces|
      ensures ',' !in pieces[i]
    {
      assert Tidy(pieces[i]);
    }
    SplitJoin(pieces, ',');
  }

  lemma CpusOfTrimmed(v: string, pieces: seq<string>)
    requires v != "" && TrimSpace(v) == v && Split(v, ',') == pieces
    ensures Cpus(v) == match AllCpus(pieces) case Some(l) => l case None => []
  {
  }
}
