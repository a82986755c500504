/** What tokens, files and shards are, said without the functions that compute them: characters by their
    codes, files by their lines, shards by their sizes (internal/dataset/dataset.go). */
module DatasetLaws {
  import opened Dataset

  // ----- Characters -----

  predicate IsLetterOrDigitCode(n: int) {
    97 <= n <= 122 || 65 <= n <= 90 || 48 <= n <= 57
  }

  /** The code of the lower case of an ASCII character. */
  function LowerCode(n: int): int {
    if 65 <= n <= 90 then n + 32 else n
  }

  lemma AlnumByCode(c: char)
    ensures IsAlnum(c) <==> IsLetterOrDigitCode(c as int)
    ensures c as int < 128 ==> LowerChar(c) as int == LowerCode(c as int)
  {
  }

  predicate IsAscii(s: Bytes) {
    forall i :: 0 <= i < |s| ==> s[i] as int < 128
  }

  /** Lower-casing goes from left to right: an ASCII character by its code, the Kelvin sign to k, the
      dotted capital I to i, and any other byte to itself. */
  lemma LowerCases(c: char, s: Bytes)
    ensures c as int < 128 ==>
              |ToLower([c] + s)| > 0 && ToLower([c] + s)[0] as int == LowerCode(c as int) && ToLower([c] + s)[1..] == ToLower(s)
    ensures ToLower("\U{E2}\U{84}\U{AA}" + s) == "k" + ToLower(s)
    ensures ToLower("\U{C4}\U{B0}" + s) == "i" + ToLower(s)
    ensures c as int >= 128 && !IsKelvin([c] + s) && !IsDottedI([c] + s) ==> ToLower([c] + s) == [c] + ToLower(s)
  {
    assert ([c] + s)[1..] == s;
    assert ("\U{E2}\U{84}\U{AA}" + s)[3..] == s;
    assert ("\U{C4}\U{B0}" + s)[2..] == s;
  }

  lemma LowerHead(c: char, s: Bytes)
    requires c as int < 128
    ensures ToLower([c] + s) == [LowerChar(c)] + ToLower(s)
  {
    assert ([c] + s)[1..] == s;
  }

  /** ASCII text is lowered on its own, ... */
  lemma {:induction false} LowerAppend(a: Bytes, b: Bytes)
    requires IsAscii(a)
    ensures ToLower(a + b) == ToLower(a) + ToLower(b)
  {
    if a == "" {
      assert a + b == b;
    } else {
      var c, rest := a[0], a[1..];
      LowerAppend(rest, b);
      LowerHead(c, rest);
      LowerHead(c, rest + b);
      assert a == [c] + rest;
      Regroup([c], rest, b);
      Regroup([LowerChar(c)], ToLower(rest), ToLower(b));
    }
  }

  lemma Regroup(a: Bytes, b: Bytes, c: Bytes)
    ensures a + b + c == a + (b + c)
  {
  }

  /** ... character by character. */
  lemma {:induction false} LowerOfAscii(a: Bytes)
    requires IsAscii(a)
    ensures |ToLower(a)| == |a|
    ensures forall i :: 0 <= i < |a| ==> ToLower(a)[i] as int == LowerCode(a[i] as int)
  {
    if a != "" {
      var c, rest := a[0], a[1..];
      LowerOfAscii(rest);
      LowerHead(c, rest);
      AlnumByCode(c);
      assert a == [c] + rest;
    }
  }

  // ----- Tokens -----

  /** A word of ASCII letters and digits is one token, its letters in lower case. */
  lemma WordIsToken(w: Bytes)
    requires w != "" && AllAlnum(w)
    ensures |Tokenize(w)| == 1 && |Tokenize(w)[0]| == |w|
    ensures forall i :: 0 <= i < |w| ==> Tokenize(w)[0][i] as int == LowerCode(w[i] as int)
  {
    assert IsAscii(w) by {
      forall i | 0 <= i < |w|
        ensures w[i] as int < 128
      {
        AlnumByCode(w[i]);
      }
    }
    LowerOfAscii(w);
    forall i | 0 <= i < |w|
      ensures IsAlnum(ToLower(w)[i])
    {
      AlnumByCode(w[i]);
      AlnumByCode(ToLower(w)[i]);
    }
    RunsOfWord(ToLower(w));
  }

  /** An ASCII separator cuts a text in two: the tokens are those of both sides. */
  lemma SeparatorCuts(a: Bytes, sep: char, b: Bytes)
    requires IsAscii(a) && sep as int < 128 && !IsLetterOrDigitCode(sep as int)
    ensures Tokenize(a + [sep] + b) == Tokenize(a) + Tokenize(b)
  {
    LowerCut(a, sep, b);
    RunsCut(ToLower(a + [sep] + b), ToLower(a), sep, ToLower(b));
  }

  lemma LowerCut(a: Bytes, sep: char, b: Bytes)
    requires IsAscii(a) && sep as int < 128 && !IsLetterOrDigitCode(sep as int)
    ensures ToLower(a + [sep] + b) == ToLower(a) + [sep] + ToLower(b)
  {
    AlnumByCode(sep);
    LowerAppend(a + [sep], b);
    LowerAppend(a, [sep]);
    LowerOfSeparator(sep);
  }

  lemma LowerOfSeparator(sep: char)
    requires sep as int < 128 && LowerChar(sep) == sep
    ensures ToLower([sep]) == [sep]
  {
    LowerHead(sep, "");
    assert [sep] + "" == [sep];
  }

  lemma RunsCut(s: Bytes, a: Bytes, sep: char, b: Bytes)
    requires s == a + [sep] + b && !IsLetterOrDigitCode(sep as int)
    ensures Runs(s) == Runs(a) + Runs(b)
  {
    AlnumByCode(sep);
    RunsSplitAtSeparator(a, sep, b);
  }

  lemma NoText()
    ensures Tokenize("") == []
  {
  }

  // ----- Files -----

  /** A saved file is one line per record: the label, a tab, the text and a newline. */
  lemma {:induction false} SavedLines(a: seq<Record>, r: Record)
    ensures Encode([]) == "" && Encode(a + [r]) == Encode(a) + r.lbl + "\t" + r.text + "\n"
  {
    if a == [] {
      assert a + [r] == [r] && [r][1..] == [];
    } else {
      assert (a + [r])[1..] == a[1..] + [r];
      SavedLines(a[1..], r);
    }
  }

  /** A line without its final carriage return. */
  predicate IsTrimmed(line: Bytes, trimmed: Bytes) {
    line == trimmed + "\r" || (line == trimmed && !EndsInReturn(line))
  }

  predicate EndsInReturn(line: Bytes) {
    line != "" && line[|line| - 1] == '\r'
  }

  lemma TrimmedIs(line: Bytes, trimmed: Bytes)
    requires IsTrimmed(line, trimmed)
    ensures DropCR(line) == trimmed
  {
  }

  /** How a file with one or more lines is read. The first line is too long, blank, without a tab, or a
      record, cut at its first tab; after an error nothing more is read. */
  lemma FirstLine(line: Bytes, trimmed: Bytes, rest: Bytes)
    requires '\n' !in line && IsTrimmed(line, trimmed)
    ensures |line| >= 1024 * 1024 ==> Decode(line + "\n" + rest) == Failed(LineTooLong)
    ensures |line| < 1024 * 1024 && trimmed == "" ==> Decode(line + "\n" + rest) == Decode(rest)
    ensures |line| < 1024 * 1024 && trimmed != "" && '\t' !in trimmed ==> Decode(line + "\n" + rest) == Failed(Malformed(trimmed))
    ensures forall lbl, text :: |line| < 1024 * 1024 && '\t' !in lbl && trimmed == lbl + "\t" + text ==>
              Decode(line + "\n" + rest) == Decode(rest).After([Record(lbl, text)])
  {
    var content := line + "\n" + rest;
    TrimmedIs(line, trimmed);
    assert content[..|line|] == line && content[|line| + 1..] == rest;
    IndexOfIs(content, '\n', |line|);
    forall lbl, text | '\t' !in lbl && trimmed == lbl + "\t" + text
      ensures IndexOf(trimmed, '\t') == |lbl| && trimmed[..|lbl|] == lbl && trimmed[|lbl| + 1..] == text
    {
      assert trimmed[..|lbl|] == lbl;
      IndexOfIs(trimmed, '\t', |lbl|);
    }
    if '\t' !in trimmed {
      assert trimmed[..|trimmed|] == trimmed;
      IndexOfIs(trimmed, '\t', |trimmed|);
    }
  }

  /** The last line needs no newline, and an empty file has no records. */
  lemma LastLine(line: Bytes)
    requires '\n' !in line
    ensures Decode(line) == Decode(line + "\n") && Decode("") == Loaded([])
  {
    if line != "" {
      assert line[..|line|] == line;
      IndexOfIs(line, '\n', |line|);
      var content := line + "\n";
      assert content[..|line|] == line && content[|line| + 1..] == "";
      IndexOfIs(content, '\n', |line|);
    } else {
      assert IndexOf("\n", '\n') == 0;
      assert "\n"[..0] == "" && "\n"[1..] == "";
      assert "" + "\n" == "\n";
    }
  }

  /** A file that is not there cannot be opened; one that is there is read. */
  lemma OpenedExactlyWhen(files: map<Bytes, Bytes>, path: Bytes)
    ensures LoadFrom(files, path) == Failed(OpenFailed(path)) <==> path !in files
  {
    if path in files {
      NeverOpenFailed(files[path], path);
    }
  }

  /** Decode goes on behind the first line, or stops at an error of that line. */
  lemma FirstEntry(content: Bytes) returns (entry: Entry, rest: Bytes)
    requires content != ""
    ensures |rest| < |content| && (entry.Bad? ==> !entry.error.OpenFailed?)
    ensures Decode(content) == match entry
                               case Blank => Decode(rest)
                               case Bad(error) => Failed(error)
                               case Entry(r) => Decode(rest).After([r])
  {
    var n := IndexOf(content, '\n');
    rest := if n < |content| then content[n + 1..] else "";
    var line := DropCR(content[..n]);
    var tab := IndexOf(line, '\t');
    entry := if n >= MAX_LINE then Bad(LineTooLong)
             else if line == "" then Blank
             else if tab == |line| then Bad(Malformed(line))
             else Entry.Entry(Record(line[..tab], line[tab + 1..]));
  }

  lemma {:induction false} NeverOpenFailed(content: Bytes, path: Bytes)
    ensures Decode(content) != Failed(OpenFailed(path))
    decreases |content|
  {
    if content != "" {
      var entry, rest := FirstEntry(content);
      NeverOpenFailed(rest, path);
    }
  }

  // ----- Shards -----

  /** Larger shards first, and none larger than another by more than one. */
  ghost predicate Balanced(shards: seq<seq<Record>>) {
    forall i, j :: 0 <= i < j < |shards| ==> |shards[j]| <= |shards[i]| <= |shards[j]| + 1
  }

  function Sum(shards: seq<seq<Record>>): nat {
    if shards == [] then 0 else Sum(shards[..|shards| - 1]) + |shards[|shards| - 1]|
  }

  lemma {:induction false} FlattenSize(shards: seq<seq<Record>>)
    ensures |Flatten(shards)| == Sum(shards)
  {
    if shards != [] {
      FlattenSize(shards[..|shards| - 1]);
    }
  }

  /** The first k shards have one record more than the others, which have m. */
  ghost predicate Stepped(shards: seq<seq<Record>>, m: nat, k: nat) {
    forall i :: 0 <= i < |shards| ==> |shards[i]| == m + if i < k then 1 else 0
  }

  lemma {:induction false} SteppedSum(shards: seq<seq<Record>>, m: nat, k: nat)
    requires Stepped(shards, m, k)
    ensures Sum(shards) == |shards| * m + if |shards| < k then |shards| else k
  {
    if shards != [] {
      var n := |shards| - 1;
      SteppedSum(shards[..n], m, k);
      OneMore(n, m);
    }
  }

  /** A balanced sharding is stepped. */
  lemma {:induction false} BalancedIsStepped(shards: seq<seq<Record>>) returns (k: nat)
    requires shards != [] && Balanced(shards)
    ensures k < |shards| && Stepped(shards, |shards[|shards| - 1]|, k)
    decreases |shards|
  {
    var n := |shards| - 1;
    if n == 0 {
      k := 0;
    } else if |shards[n - 1]| == |shards[n]| {
      k := BalancedIsStepped(shards[..n]);
    } else {
      k := n;
      assert forall i :: 0 <= i < n ==> |shards[n - 1]| <= |shards[i]| <= |shards[n]| + 1;
    }
  }

  lemma QuotientIs(length: nat, n: nat, m: nat, k: nat)
    requires k < n && length == n * m + k
    ensures length / n == m && length % n == k
  {
    if length / n < m {
      Monotone(length / n + 1, m, n);
    } else if length / n > m {
      Monotone(m + 1, length / n, n);
    }
  }

  lemma PartitionIsStepped(shards: seq<seq<Record>>, records: seq<Record>, n: int)
    requires n > 0 && IsPartition(shards, records, n)
    ensures Balanced(shards)
  {
  }

  /** The shards of Partition are exactly the n contiguous ones, in order, that are balanced. */
  lemma PartitionExactlyWhenBalanced(shards: seq<seq<Record>>, records: seq<Record>, n: int)
    requires n > 0
    ensures IsPartition(shards, records, n) <==> |shards| == n && Flatten(shards) == records && Balanced(shards)
  {
    if |shards| == n && Flatten(shards) == records && Balanced(shards) {
      var k := BalancedIsStepped(shards);
      var m := |shards[n - 1]|;
      FlattenSize(shards);
      SteppedSum(shards, m, k);
      QuotientIs(|records|, n, m, k);
    }
    if IsPartition(shards, records, n) {
      PartitionIsStepped(shards, records, n);
    }
  }
}
