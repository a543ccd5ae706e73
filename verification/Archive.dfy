/**
 Reading a testcase archive: which archives are accepted, what the loop over the entries has read by the end, and
 that two files for one slot are refused.
 */
module Archive {
  import opened Distinct
  import opened Filename
  import opened Options

  type Bytes = seq<bv8>

  /** An archive entry; data is None when it cannot be opened or read. */
  datatype Entry = Entry(path: string, isDir: bool, data: Option<Bytes>)

  datatype File = File(slot: Slot, data: Bytes)

  function StripSlashes(p: string): string {
    if p != [] && p[|p| - 1] == '/' then StripSlashes(p[..|p| - 1]) else p
  }

  /** path.Base */
  function BaseName(p: string): string {
    var q := StripSlashes(p);
    if p == "" then "." else if q == "" then "/" else if '/' in q then q[LastOf(q, '/') + 1..] else q
  }

  /** Directories before a file name, and slashes behind it, are dropped. */
  lemma BaseNameMeans(dir: string, name: string)
    requires name != "" && '/' !in name
    ensures BaseName(name) == name && BaseName(dir + ['/'] + name) == name && BaseName(name + ['/']) == name
    ensures BaseName(dir + ['/'] + name + ['/']) == name
  {
    var p := dir + ['/'] + name;
    LastOfJoined(dir, '/', name);
    assert name[|name| - 1] in name && p[|p| - 1] == name[|name| - 1];
    assert StripSlashes(p) == p && StripSlashes(name) == name;
    assert (p + ['/'])[..|p|] == p && (name + ['/'])[..|name|] == name;
  }

  /** Go's answers for a path without a name. */
  lemma {:induction false} NoBaseName(slashes: string)
    requires forall i :: 0 <= i < |slashes| ==> slashes[i] == '/'
    ensures BaseName(slashes) == if slashes == "" then "." else "/"
    decreases |slashes|
  {
    if |slashes| > 1 {
      NoBaseName(slashes[..|slashes| - 1]);
    }
  }

  /** What an entry is for the ingestion: skipped, unusable, or a testcase file. */
  datatype Item = Directory | Unusable | Testcase(file: File)

  function ItemOf(e: Entry): Item {
    if e.isDir then Directory
    else
      match (ParseName(BaseName(e.path)), e.data)
      case (Some(slot), Some(data)) => Testcase(File(slot, data))
      case _ => Unusable
  }

  /** Directories are skipped; any other entry must be readable and named like a testcase file, in any directory. */
  lemma ItemMeans(e: Entry)
    ensures ItemOf(e).Directory? <==> e.isDir
    ensures ItemOf(e).Unusable? <==> !e.isDir && (e.data.None? || ParseName(BaseName(e.path)).None?)
    ensures ItemOf(e).Testcase? ==> Some(ItemOf(e).file.data) == e.data
    ensures forall dir, s :: Fits(s) && e.path == dir + ['/'] + PrintName(s) && !e.isDir && e.data.Some? ==>
              ItemOf(e) == Testcase(File(s, e.data.value))
    ensures forall s :: Fits(s) && e.path == PrintName(s) && !e.isDir && e.data.Some? ==>
              ItemOf(e) == Testcase(File(s, e.data.value))
  {
    forall s: Slot | Fits(s)
      ensures PrintName(s) != "" && '/' !in PrintName(s) && ParseName(PrintName(s)) == Some(s)
    {
      ParsePrint(s);
      PlainName(s);
    }
    forall dir: string, s: Slot | Fits(s)
      ensures BaseName(dir + ['/'] + PrintName(s)) == PrintName(s) && BaseName(PrintName(s)) == PrintName(s)
    {
      PlainName(s);
      BaseNameMeans(dir, PrintName(s));
    }
  }

  lemma PlainName(s: Slot)
    ensures PrintName(s) != "" && '/' !in PrintName(s)
  {
    DigitsOnly(s.subtask, '/');
    DigitsOnly(s.testcase, '/');
  }

  function Items(entries: seq<Entry>): seq<Item> {
    seq(|entries|, i requires 0 <= i < |entries| => ItemOf(entries[i]))
  }

  predicate Usable(items: seq<Item>) {
    Unusable !in items
  }

  function FilesIn(e: Item): seq<File> {
    if e.Testcase? then [e.file] else []
  }

  function Files(items: seq<Item>): seq<File> {
    if items == [] then [] else Files(items[..|items| - 1]) + FilesIn(items[|items| - 1])
  }

  function Slots(files: seq<File>): seq<Slot> {
    seq(|files|, i requires 0 <= i < |files| => files[i].slot)
  }

  // ---------- The pairs ----------

  /** testcasePair */
  datatype Pair = Pair(input: Option<Bytes>, output: Option<Bytes>)

  type Pairs = map<nat, map<nat, Pair>>

  function Side(p: Pair, kind: Kind): Option<Bytes> {
    if kind.In? then p.input else p.output
  }

  function Get(pairs: Pairs, s: Slot): Option<Bytes> {
    if s.subtask in pairs && s.testcase in pairs[s.subtask] then Side(pairs[s.subtask][s.testcase], s.kind) else None
  }

  function WithSide(p: Pair, kind: Kind, data: Bytes): Pair {
    if kind.In? then p.(input := Some(data)) else p.(output := Some(data))
  }

  function PutFile(pairs: Pairs, f: File): Pairs {
    var tests := if f.slot.subtask in pairs then pairs[f.slot.subtask] else map[];
    var p := if f.slot.testcase in tests then tests[f.slot.testcase] else Pair(None, None);
    pairs[f.slot.subtask := tests[f.slot.testcase := WithSide(p, f.slot.kind, f.data)]]
  }

  /** Every pair holds something, and every subtask has a pair. */
  predicate NothingEmpty(pairs: Pairs) {
    forall s :: s in pairs ==> pairs[s] != map[] && forall t :: t in pairs[s] ==> pairs[s][t] != Pair(None, None)
  }

  /** The pairs hold exactly the data of the files. */
  ghost predicate HoldsFiles(pairs: Pairs, files: seq<File>) {
    && NothingEmpty(pairs)
    && (forall i :: 0 <= i < |files| ==> Get(pairs, files[i].slot) == Some(files[i].data))
    && (forall s: Slot :: Get(pairs, s).Some? ==> s in Slots(files))
  }

  lemma GetAfterPut(pairs: Pairs, f: File, s: Slot)
    ensures Get(PutFile(pairs, f), s) == if s == f.slot then Some(f.data) else Get(pairs, s)
  {
  }

  lemma StillNothingEmpty(pairs: Pairs, f: File)
    requires NothingEmpty(pairs)
    ensures NothingEmpty(PutFile(pairs, f))
  {
    var more := PutFile(pairs, f);
    forall s | s in more
      ensures more[s] != map[]
    {
      if s == f.slot.subtask {
        assert f.slot.testcase in more[s];
      }
    }
  }

  lemma SlotsMore(files: seq<File>, f: File)
    ensures Slots(files + [f]) == Slots(files) + [f.slot]
  {
  }

  lemma PutHolds(pairs: Pairs, files: seq<File>, f: File)
    requires HoldsFiles(pairs, files) && Get(pairs, f.slot).None?
    ensures HoldsFiles(PutFile(pairs, f), files + [f])
  {
    StillNothingEmpty(pairs, f);
    SlotsMore(files, f);
    var more := files + [f];
    forall i | 0 <= i < |more|
      ensures Get(PutFile(pairs, f), more[i].slot) == Some(more[i].data)
    {
      GetAfterPut(pairs, f, more[i].slot);
    }
    forall s: Slot | Get(PutFile(pairs, f), s).Some?
      ensures s in Slots(files) + [f.slot]
    {
      GetAfterPut(pairs, f, s);
    }
  }

  /** A slot has data exactly when some file is for it. */
  lemma HeldSlots(pairs: Pairs, files: seq<File>, s: Slot)
    requires HoldsFiles(pairs, files)
    ensures Get(pairs, s).Some? <==> s in Slots(files)
  {
    if s in Slots(files) {
      var i :| 0 <= i < |files| && Slots(files)[i] == s;
      assert files[i].slot == s;
    }
  }

  lemma FilesMore(items: seq<Item>, e: Item)
    ensures Files(items + [e]) == Files(items) + FilesIn(e)
  {
    assert (items + [e])[..|items|] == items;
  }

  lemma {:induction false} FilesPrefix(before: seq<Item>, after: seq<Item>)
    ensures Files(before) <= Files(before + after)
    decreases |after|
  {
    if after == [] {
      assert before + after == before;
    } else {
      var m := |after| - 1;
      FilesPrefix(before, after[..m]);
      FilesMore(before + after[..m], after[m]);
      assert before + after == (before + after[..m]) + [after[m]];
    }
  }

  lemma PrefixRepeats<T>(a: seq<T>, b: seq<T>)
    requires a <= b && NoRepeats(b)
    ensures NoRepeats(a)
  {
    forall i, j | 0 <= i < j < |a|
      ensures a[i] != a[j]
    {
      assert a[i] == b[i] && a[j] == b[j];
    }
  }

  lemma SlotsPrefix(a: seq<File>, b: seq<File>)
    requires a <= b
    ensures Slots(a) <= Slots(b)
  {
  }

  /** What the loop has established after the items in before. */
  ghost predicate ReadSoFar(before: seq<Item>, pairs: Pairs) {
    Usable(before) && NoRepeats(Slots(Files(before))) && HoldsFiles(pairs, Files(before))
  }

  lemma ReadDirectory(before: seq<Item>, e: Item, pairs: Pairs)
    requires ReadSoFar(before, pairs) && e.Directory?
    ensures ReadSoFar(before + [e], pairs)
  {
    FilesMore(before, e);
    assert Files(before) + [] == Files(before);
  }

  lemma ReadFile(before: seq<Item>, e: Item, f: File, pairs: Pairs)
    requires ReadSoFar(before, pairs) && e == Testcase(f) && Get(pairs, f.slot).None?
    ensures ReadSoFar(before + [e], PutFile(pairs, f))
  {
    FilesMore(before, e);
    HeldSlots(pairs, Files(before), f.slot);
    PutHolds(pairs, Files(before), f);
    SlotsMore(Files(before), f);
    ElemsAppend(Slots(Files(before)), f.slot);
  }

  /** A second file for the same slot makes the slots of the whole archive repeat. */
  lemma Duplicate(before: seq<Item>, e: Item, after: seq<Item>, f: File, pairs: Pairs)
    requires ReadSoFar(before, pairs) && e == Testcase(f) && Get(pairs, f.slot).Some?
    ensures !NoRepeats(Slots(Files(before + [e] + after)))
  {
    var a, b := Slots(Files(before + [e])), Slots(Files(before + [e] + after));
    FilesMore(before, e);
    HeldSlots(pairs, Files(before), f.slot);
    SlotsMore(Files(before), f);
    assert a[..|a| - 1] == Slots(Files(before));
    RepeatsSplit(a);
    FilesPrefix(before + [e], after);
    SlotsPrefix(Files(before + [e]), Files(before + [e] + after));
    if NoRepeats(b) {
      PrefixRepeats(a, b);
    }
  }

  method ReadEntries(entries: seq<Entry>) returns (r: Option<Pairs>)
    ensures r.Some? <==> Usable(Items(entries)) && NoRepeats(Slots(Files(Items(entries))))
    ensures r.Some? ==> HoldsFiles(r.value, Files(Items(entries)))
  {
    r := ReadItems(Items(entries));
  }

  /** The loop over the entries; None when one cannot be used or is for a slot already filled. */
  method ReadItems(items: seq<Item>) returns (r: Option<Pairs>)
    ensures r.Some? <==> Usable(items) && NoRepeats(Slots(Files(items)))
    ensures r.Some? ==> HoldsFiles(r.value, Files(items))
  {
    var pairs: Pairs := map[];
    for n := 0 to |items|
      invariant ReadSoFar(items[..n], pairs)
    {
      var item := items[n];
      assert items == items[..n] + [item] + items[n + 1..] && items[..n + 1] == items[..n] + [item];
      if item.Directory? {
        ReadDirectory(items[..n], item, pairs);
        continue;
      }
      if item.Unusable? {
        return None;
      }
      if Get(pairs, item.file.slot).Some? {
        Duplicate(items[..n], item, items[n + 1..], item.file, pairs);
        return None;
      }
      ReadFile(items[..n], item, item.file, pairs);
      pairs := PutFile(pairs, item.file);
    }
    assert items[..|items|] == items;
    return Some(pairs);
  }
}
