/** The labelled SMS dataset: tokens, the TSV file format and its reader, and sharding
    (internal/dataset/dataset.go).

    A Go string is a sequence of bytes. It is modelled by a Dafny string in which every char
    stands for one byte. */
module Dataset {

  type Bytes = string

  const LABEL_SPAM: Bytes := "spam"

  datatype Record = Record(lbl: Bytes, text: Bytes)

  // ----- Tokenize -----

  predicate IsAlnum(c: char) {
    'a' <= c <= 'z' || 'A' <= c <= 'Z' || '0' <= c <= '9'
  }

  function LowerChar(c: char): char {
    if 'A' <= c <= 'Z' then 'a' + (c - 'A') else c
  }

  /** Lower-casing, as far as the token pattern can see it: ASCII letters, and the only two other
      code points whose lower case is ASCII, U+212A (E2 84 AA) and U+0130 (C4 B0). All other
      bytes stay outside the token alphabet whatever they are mapped to. */
  function ToLower(s: Bytes): Bytes {
    if s == "" then "" else [Lowered(s)] + ToLower(s[Width(s)..])
  }

  predicate IsKelvin(s: Bytes) {
    |s| >= 3 && s[0] == '\U{E2}' && s[1] == '\U{84}' && s[2] == '\U{AA}'
  }

  predicate IsDottedI(s: Bytes) {
    |s| >= 2 && s[0] == '\U{C4}' && s[1] == '\U{B0}'
  }

  /** The lower case of the first character, and the number of bytes it is written with. */
  function Lowered(s: Bytes): char
    requires s != ""
  {
    if IsKelvin(s) then 'k' else if IsDottedI(s) then 'i' else LowerChar(s[0])
  }

  function Width(s: Bytes): (n: nat)
    requires s != ""
    ensures 1 <= n <= |s|
  {
    if IsKelvin(s) then 3 else if IsDottedI(s) then 2 else 1
  }

  /** The length of the longest alphanumeric prefix. */
  function RunLength(s: Bytes): (n: nat)
    ensures n <= |s|
    ensures forall i :: 0 <= i < n ==> IsAlnum(s[i])
    ensures n < |s| ==> !IsAlnum(s[n])
  {
    if s == "" || !IsAlnum(s[0]) then 0 else 1 + RunLength(s[1..])
  }

  /** The leftmost, longest, non-overlapping matches of [a-zA-Z0-9]+. */
  function Runs(s: Bytes): seq<Bytes>
    decreases |s|
  {
    if s == "" then []
    else if !IsAlnum(s[0]) then Runs(s[1..])
    else
      var n := RunLength(s);
      [s[..n]] + Runs(s[n..])
  }

  function Tokenize(text: Bytes): seq<Bytes> {
    Runs(ToLower(text))
  }

  ghost predicate AllAlnum(s: Bytes) {
    forall i :: 0 <= i < |s| ==> IsAlnum(s[i])
  }

  lemma RunLengthIs(s: Bytes, n: nat)
    requires n <= |s| && AllAlnum(s[..n]) && (n < |s| ==> !IsAlnum(s[n]))
    ensures RunLength(s) == n
  {
    assert forall i :: 0 <= i < n ==> s[..n][i] == s[i];
  }

  /** A separator cuts the text: nothing is matched across it and both sides are matched on their
      own. With RunsOfWord this fixes the matches of every string. */
  lemma {:induction false} RunsSplitAtSeparator(a: Bytes, sep: char, b: Bytes)
    requires !IsAlnum(sep)
    ensures Runs(a + [sep] + b) == Runs(a) + Runs(b)
    decreases |a|
  {
    var s := a + [sep] + b;
    if a == "" {
      assert s[1..] == b;
    } else if !IsAlnum(a[0]) {
      assert s[1..] == a[1..] + [sep] + b;
      RunsSplitAtSeparator(a[1..], sep, b);
    } else {
      var n := RunLength(a);
      assert s[..n] == a[..n];
      RunLengthIs(s, n);
      assert s[n..] == a[n..] + [sep] + b;
      RunsSplitAtSeparator(a[n..], sep, b);
    }
  }

  lemma RunsOfWord(w: Bytes)
    requires w != "" && AllAlnum(w)
    ensures Runs(w) == [w]
  {
    RunLengthIs(w, |w|);
    assert w[..|w|] == w;
  }

  predicate IsLowerAlnum(c: char) {
    'a' <= c <= 'z' || '0' <= c <= '9'
  }

  lemma {:induction false} LowerHasNoCapitals(s: Bytes)
    ensures forall c :: c in ToLower(s) && IsAlnum(c) ==> IsLowerAlnum(c)
  {
    if s != "" {
      LowerHasNoCapitals(s[Width(s)..]);
    }
  }

  lemma {:induction false} RunsAreWords(s: Bytes)
    ensures forall w :: w in Runs(s) ==> w != "" && AllAlnum(w) && forall c :: c in w ==> c in s
    decreases |s|
  {
    if s != "" {
      RunsAreWords(s[if IsAlnum(s[0]) then RunLength(s) else 1..]);
    }
  }

  /** Tokens are non-empty words of lower-case letters and digits. */
  lemma TokensAreWords(text: Bytes)
    ensures forall w :: w in Tokenize(text) ==> w != "" && forall c :: c in w ==> IsLowerAlnum(c)
  {
    LowerHasNoCapitals(text);
    RunsAreWords(ToLower(text));
  }

  // ----- The TSV file format -----

  /** bufio.Scanner gives up on a line that does not fit, with its newline, in its 1 MiB buffer. */
  const MAX_LINE: nat := 1024 * 1024

  datatype LoadError = OpenFailed(path: Bytes) | Malformed(line: Bytes) | LineTooLong

  datatype LoadResult = Loaded(records: seq<Record>) | Failed(error: LoadError)
  {
    /** The records read before, put in front. */
    function After(earlier: seq<Record>): LoadResult {
      match this
      case Loaded(rs) => Loaded(earlier + rs)
      case Failed(_) => this
    }
  }

  function Line(r: Record): Bytes {
    r.lbl + "\t" + r.text + "\n"
  }

  /** The contents of a saved file. */
  function Encode(records: seq<Record>): Bytes {
    if records == [] then "" else Line(records[0]) + Encode(records[1..])
  }

  /** Where c first occurs in s, or |s|. */
  function IndexOf(s: Bytes, c: char): (n: nat)
    ensures n <= |s|
    ensures c !in s[..n]
    ensures n < |s| ==> s[n] == c
  {
    if s == "" || s[0] == c then 0
    else
      assert s[..1 + IndexOf(s[1..], c)] == [s[0]] + s[1..][..IndexOf(s[1..], c)];
      1 + IndexOf(s[1..], c)
  }

  /** Scanner lines lose one trailing carriage return. */
  function DropCR(line: Bytes): Bytes {
    if line != "" && line[|line| - 1] == '\r' then line[..|line| - 1] else line
  }

  /** What Load makes of a file's contents, line by line. */
  function Decode(content: Bytes): LoadResult
    decreases |content|
  {
    if content == "" then Loaded([])
    else
      var n := IndexOf(content, '\n');
      if n >= MAX_LINE then Failed(LineTooLong)
      else
        var line := DropCR(content[..n]);
        var rest := if n < |content| then content[n + 1..] else "";
        var tab := IndexOf(line, '\t');
        if line == "" then Decode(rest)
        else if tab == |line| then Failed(Malformed(line))
        else Decode(rest).After([Record(line[..tab], line[tab + 1..])])
  }

  /** Reading the file at a path. */
  function LoadFrom(files: map<Bytes, Bytes>, path: Bytes): LoadResult {
    if path in files then Decode(files[path]) else Failed(OpenFailed(path))
  }

  method Load(files: map<Bytes, Bytes>, path: Bytes) returns (result: LoadResult)
    ensures result == LoadFrom(files, path)
  {
    if path !in files {
      return Failed(OpenFailed(path));
    }
    var records: seq<Record> := [];
    var rest := files[path];
    while rest != ""
      invariant LoadFrom(files, path) == Decode(rest).After(records)
      decreases |rest|
    {
      var entry, after := ReadEntry(rest);
      match entry {
        case Bad(error) => return Failed(error);
        case Blank =>
        case Entry(r) =>
          AfterAfter(Decode(after), [r], records);
          records := records + [r];
      }
      rest := after;
    }
    return Loaded(records);
  }

  datatype Entry = Blank | Bad(error: LoadError) | Entry(record: Record)

  /** One turn of the loop: a line is scanned, and split at its first tab. */
  method ReadEntry(content: Bytes) returns (entry: Entry, rest: Bytes)
    requires content != ""
    ensures |rest| < |content|
    ensures Decode(content) == match entry
                               case Blank => Decode(rest)
                               case Bad(error) => Failed(error)
                               case Entry(r) => Decode(rest).After([r])
  {
    var n := IndexOf(content, '\n');
    rest := if n < |content| then content[n + 1..] else "";
    if n >= MAX_LINE {
      return Bad(LineTooLong), rest;
    }
    var line := DropCR(content[..n]);
    if line == "" {
      return Blank, rest;
    }
    var tab := IndexOf(line, '\t');
    if tab == |line| {
      return Bad(Malformed(line)), rest;
    }
    entry := Entry(Record(line[..tab], line[tab + 1..]));
  }

  lemma AfterAfter(result: LoadResult, b: seq<Record>, a: seq<Record>)
    ensures result.After(b).After(a) == result.After(a + b)
  {
    if result.Loaded? {
      assert a + (b + result.records) == a + b + result.records;
    }
  }

  method Save(records: seq<Record>) returns (content: Bytes)
    ensures content == Encode(records)
  {
    content := "";
    for i := 0 to |records|
      invariant Encode(records) == content + Encode(records[i..])
    {
      assert records[i..][1..] == records[i + 1..];
      content := content + Line(records[i]);
    }
  }

  // ----- The round trip -----

  /** The records a TSV file can hold: a reader splits at the first tab and at every newline, and
      it drops a carriage return at the end of a line and gives up on over-long lines. */
  predicate TsvSafe(r: Record) {
    && '\t' !in r.lbl
    && '\n' !in r.lbl
    && '\n' !in r.text
    && (r.text != "" ==> r.text[|r.text| - 1] != '\r')
    && |r.lbl| + 1 + |r.text| < MAX_LINE
  }

  ghost predicate Clean(r: Record) {
    '\t' !in r.lbl && '\n' !in r.lbl && '\n' !in r.text
  }

  lemma IndexOfIs(s: Bytes, c: char, n: nat)
    requires n <= |s| && c !in s[..n] && (n < |s| ==> s[n] == c)
    ensures IndexOf(s, c) == n
  {
    var k := IndexOf(s, c);
    assert forall i :: 0 <= i < n ==> s[i] in s[..n];
    assert forall i :: 0 <= i < k ==> s[i] in s[..k];
  }

  /** How the first line of a saved file is read back. */
  lemma DecodeLine(r: Record, rest: Bytes)
    requires Clean(r)
    ensures var trimmed := Record(r.lbl, DropCR(r.text));
            Decode(Line(r) + rest)
            == if |r.lbl| + 1 + |r.text| >= MAX_LINE then Failed(LineTooLong)
               else Decode(rest).After([trimmed])
  {
    var n := |r.lbl| + 1 + |r.text|;
    var content := Line(r) + rest;
    assert content[..n] == r.lbl + "\t" + r.text;
    IndexOfIs(content, '\n', n);
    if n < MAX_LINE {
      var line := DropCR(content[..n]);
      assert line == r.lbl + "\t" + DropCR(r.text);
      assert line[..|r.lbl|] == r.lbl;
      IndexOfIs(line, '\t', |r.lbl|);
      assert content[n + 1..] == rest;
      assert line[|r.lbl| + 1..] == DropCR(r.text);
    }
  }

  lemma LineIsClean(line: Bytes)
    requires '\n' !in line
    ensures var tab := IndexOf(line, '\t');
            tab < |line| ==> Clean(Record(line[..tab], line[tab + 1..]))
  {
  }

  ghost predicate AllClean(result: LoadResult) {
    result.Loaded? ==> forall r :: r in result.records ==> Clean(r)
  }

  lemma AfterIsClean(result: LoadResult, r: Record)
    requires AllClean(result) && Clean(r)
    ensures AllClean(result.After([r]))
  {
  }

  /** Whatever the file, the records read from it have clean labels and one-line texts. */
  lemma {:induction false} DecodedIsClean(content: Bytes)
    ensures AllClean(Decode(content))
    decreases |content|
  {
    if content != "" {
      var n := IndexOf(content, '\n');
      var line := DropCR(content[..n]);
      var rest := if n < |content| then content[n + 1..] else "";
      DecodedIsClean(rest);
      LineIsClean(line);
      var tab := IndexOf(line, '\t');
      if tab < |line| {
        AfterIsClean(Decode(rest), Record(line[..tab], line[tab + 1..]));
      }
    }
  }

  lemma {:induction false} CleanRoundTrip(records: seq<Record>)
    requires forall r :: r in records ==> Clean(r)
    ensures Decode(Encode(records)) == Loaded(records) <==> forall r :: r in records ==> TsvSafe(r)
  {
    if records != [] {
      var r, rest := records[0], records[1..];
      assert records == [r] + rest;
      DecodeLine(r, Encode(rest));
      CleanRoundTrip(rest);
      FirstRecord(r, rest, Decode(Encode(rest)));
      assert forall x :: x in records <==> x == r || x in rest;
    }
  }

  /** A list is read back exactly when its first record and the others are. */
  lemma FirstRecord(r: Record, rest: seq<Record>, back: LoadResult)
    ensures back.After([Record(r.lbl, DropCR(r.text))]) == Loaded([r] + rest)
            <==> DropCR(r.text) == r.text && back == Loaded(rest)
  {
    if back.Loaded? && [Record(r.lbl, DropCR(r.text))] + back.records == [r] + rest {
      var all := [r] + rest;
      assert all[0] == r && all[1..] == rest;
      assert ([Record(r.lbl, DropCR(r.text))] + back.records)[1..] == back.records;
    }
  }

  /** Load undoes Save exactly for the lists whose records are all TSV-safe. */
  lemma RoundTripExactlyWhenSafe(records: seq<Record>)
    ensures Decode(Encode(records)) == Loaded(records) <==> forall r :: r in records ==> TsvSafe(r)
  {
    if Decode(Encode(records)) == Loaded(records) {
      DecodedIsClean(Encode(records));
    }
    if forall r :: r in records ==> Clean(r) {
      CleanRoundTrip(records);
    }
  }

  /** What Load makes of a saved text that ends in a carriage return: another text. */
  lemma CarriageReturnIsLost(lbl: Bytes, text: Bytes)
    requires Clean(Record(lbl, text + "\r")) && |lbl| + 1 + |text| + 1 < MAX_LINE
    ensures Decode(Encode([Record(lbl, text + "\r")])) == Loaded([Record(lbl, text)])
    ensures Record(lbl, text) != Record(lbl, text + "\r")
  {
    var r := Record(lbl, text + "\r");
    DecodeLine(r, "");
    assert Encode([r]) == Line(r) + "";
    assert |r.text| == |text| + 1;
    assert DropCR(r.text) == text;
    assert [Record(lbl, text)] + [] == [Record(lbl, text)];
  }

  /** And of a label that contains a tab: a shorter label and a longer text. */
  lemma TabMovesTheLabel()
    ensures Decode(Encode([Record("a\tb", "c")])) == Loaded([Record("a", "b\tc")])
  {
    var r, q := Record("a\tb", "c"), Record("a", "b\tc");
    assert Line(r) == Line(q) + "";
    assert Encode([r]) == Line(q) + "";
    DecodeLine(q, "");
    assert [q] + [] == [q];
  }

  // ----- Partition -----

  function Flatten(shards: seq<seq<Record>>): seq<Record> {
    if shards == [] then [] else Flatten(shards[..|shards| - 1]) + shards[|shards| - 1]
  }

  /** The size of shard i when length records go to n shards: the larger ones come first. */
  function ShardSize(length: nat, n: int, i: int): nat
    requires n > 0
  {
    length / n + if i < length % n then 1 else 0
  }

  /** n contiguous shards of the records, in order, as equal in size as possible. */
  ghost predicate IsPartition(shards: seq<seq<Record>>, records: seq<Record>, n: int)
    requires n > 0
  {
    && |shards| == n
    && Flatten(shards) == records
    && forall i :: 0 <= i < n ==> |shards[i]| == ShardSize(|records|, n, i)
  }

  method Partition(records: seq<Record>, n: int) returns (shards: seq<seq<Record>>)
    ensures n <= 0 ==> shards == []
    ensures n > 0 ==> IsPartition(shards, records, n)
  {
    shards := [];
    if n <= 0 {
      return;
    }
    var base := |records| / n;
    var remainder := |records| % n;
    var start := 0;
    StartEnds(|records|, n);
    for i := 0 to n
      invariant |shards| == i
      invariant start == Start(|records|, n, i) <= |records|
      invariant Flatten(shards) == records[..start]
      invariant forall k :: 0 <= k < i ==> |shards[k]| == ShardSize(|records|, n, k)
    {
      var size := base;
      if i < remainder {
        size := size + 1;
      }
      StartStep(|records|, n, i);
      var shard := records[start..start + size];
      assert records[..start] + shard == records[..start + size];
      assert (shards + [shard])[..i] == shards;
      shards := shards + [shard];
      start := start + size;
    }
    assert records[..start] == records;
  }

  /** Where shard i starts. */
  ghost function Start(length: nat, n: int, i: int): int
    requires n > 0
  {
    i * (length / n) + if i < length % n then i else length % n
  }

  lemma StartEnds(length: nat, n: int)
    requires n > 0
    ensures Start(length, n, 0) == 0 && Start(length, n, n) == length
  {
  }

  /** The shards follow each other and none reaches past the end. */
  lemma StartStep(length: nat, n: int, i: int)
    requires 0 <= i < n
    ensures Start(length, n, i + 1) == Start(length, n, i) + ShardSize(length, n, i)
    ensures Start(length, n, i + 1) <= length
  {
    OneMore(i, length / n);
    StartEnds(length, n);
    Monotone(i + 1, n, length / n);
  }

  lemma OneMore(i: int, base: int)
    ensures (i + 1) * base == i * base + base
  {
  }

  lemma Monotone(i: int, n: int, base: nat)
    requires i <= n
    ensures i * base <= n * base
  {
  }

  /** Concatenation and the sizes leave no freedom: there is only one such sharding. */
  lemma {:induction false} PartitionIsUnique(a: seq<seq<Record>>, b: seq<seq<Record>>)
    requires |a| == |b| && Flatten(a) == Flatten(b)
    requires forall i :: 0 <= i < |a| ==> |a[i]| == |b[i]|
    ensures a == b
  {
    if a != [] {
      var n := |a| - 1;
      assert |Flatten(a[..n])| == |Flatten(b[..n])|;
      assert Flatten(a[..n]) == Flatten(a)[..|Flatten(a[..n])|];
      assert Flatten(b[..n]) == Flatten(b)[..|Flatten(b[..n])|];
      assert a[n] == Flatten(a)[|Flatten(a[..n])|..];
      assert b[n] == Flatten(b)[|Flatten(b[..n])|..];
      PartitionIsUnique(a[..n], b[..n]);
      assert a == a[..n] + [a[n]];
    }
  }

  /** Every record of a sharding is in a shard, and the other way round. */
  lemma {:induction false} FlattenMembers(shards: seq<seq<Record>>, r: Record)
    ensures r in Flatten(shards) <==> exists i :: 0 <= i < |shards| && r in shards[i]
  {
    if shards != [] {
      var n := |shards| - 1;
      FlattenMembers(shards[..n], r);
      if exists i :: 0 <= i < |shards| && r in shards[i] {
        var i :| 0 <= i < |shards| && r in shards[i];
        if i < n {
          assert shards[..n][i] == shards[i];
        }
      }
    }
  }
}
