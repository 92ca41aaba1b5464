/**
  Sorting of a list of selected paths: directories first, then files, each group
  in case-insensitive order. The list is an array that is refilled in place; the
  directory test is the delegate the sorter was built with.
 */
module FilenameSorting {
  import opened Strings

  // ---------------------------------------------------------------------------
  // Case-insensitive order

  /** Punctuation and symbol blocks above Latin-1: General Punctuation up to Miscellaneous
      Symbols and Arrows (U+2000 to U+2BFF), CJK Symbols and Punctuation (U+3000 to U+303F) and
      the private use area (U+E000 to U+F8FF). */
  predicate IsSymbolBlock(c: char) {
    ('\U{2000}' <= c <= '\U{2BFF}') || ('\U{3000}' <= c <= '\U{303F}') || ('\U{E000}' <= c <= '\U{F8FF}')
  }

  /** Letters: those of ASCII and Latin-1 (small and capital), and every character above Latin-1
      outside the punctuation and symbol blocks. */
  predicate IsLetter(c: char) {
    'a' <= c <= 'z' || 'A' <= c <= 'Z' || c == '\U{00AA}' || c == '\U{00B5}' || c == '\U{00BA}'
    || ('\U{00C0}' <= c <= '\U{00FF}' && c != '\U{00D7}' && c != '\U{00F7}')
    || ('\U{0100}' <= c && !IsSymbolBlock(c))
  }

  /** The weight of a folded character, approximating the comparison of
      StringComparer.InvariantCultureIgnoreCase by three classes: white space, punctuation and
      symbols sort before digits, digits before letters. Within one class the characters keep the
      order of their codes, so a letter outside the Latin alphabet sorts after `z` rather than next
      to its base letter. */
  function Weight(c: char): (w: int)
    ensures ('0' <= c <= '9') ==> 0x11_0000 <= w < 0x22_0000
    ensures IsLetter(c) ==> 0x22_0000 <= w
    ensures !IsLetter(c) && !('0' <= c <= '9') ==> w < 0x11_0000
  {
    (if IsLetter(c) then 2 else if '0' <= c <= '9' then 1 else 0) * 0x11_0000 + c as int
  }

  /** The weights of the case-folded text. */
  function Weights(s: string): (r: seq<int>)
    ensures |r| == |s|
  {
    var folded := ToLower(s);
    seq(|s|, i requires 0 <= i < |s| => Weight(folded[i]))
  }

  lemma WeightsCons(s: string)
    requires s != []
    ensures Weights(s)[0] == Weight(ToLowerChar(s[0]))
    ensures Weights(s)[1..] == Weights(s[1..])
  {
  }

  /** Lexicographic order of weight sequences; a prefix comes first. */
  predicate LexLeq(a: seq<int>, b: seq<int>)
    decreases |a|
  {
    if a == [] then true
    else if b == [] then false
    else if a[0] < b[0] then true
    else if a[0] == b[0] then LexLeq(a[1..], b[1..])
    else false
  }

  lemma {:induction false} LexLeqTotal(a: seq<int>, b: seq<int>)
    ensures LexLeq(a, b) || LexLeq(b, a)
    decreases |a|
  {
    if a != [] && b != [] && a[0] == b[0] {
      LexLeqTotal(a[1..], b[1..]);
    }
  }

  lemma {:induction false} LexLeqTransitive(a: seq<int>, b: seq<int>, c: seq<int>)
    requires LexLeq(a, b) && LexLeq(b, c)
    ensures LexLeq(a, c)
    decreases |a|
  {
    if a != [] && b != [] && c != [] && a[0] == b[0] == c[0] {
      LexLeqTransitive(a[1..], b[1..], c[1..]);
    }
  }

  lemma {:induction false} LexLeqReflexive(a: seq<int>)
    ensures LexLeq(a, a)
    decreases |a|
  {
    if a != [] {
      LexLeqReflexive(a[1..]);
    }
  }

  /** `a` may stand before `b` in the comparison ignoring case; texts equal ignoring case may
      stand either way round. */
  predicate Precedes(a: string, b: string) {
    LexLeq(Weights(a), Weights(b))
  }

  /** Texts equal ignoring case may stand either way round. */
  lemma PrecedesIgnoresCase(a: string, b: string)
    requires EqualsIgnoreCase(a, b)
    ensures Precedes(a, b) && Precedes(b, a)
  {
    LexLeqReflexive(Weights(a));
  }

  lemma PrecedesTotal(a: string, b: string)
    ensures Precedes(a, b) || Precedes(b, a)
  {
    LexLeqTotal(Weights(a), Weights(b));
  }

  lemma PrecedesTransitive(a: string, b: string, c: string)
    requires Precedes(a, b) && Precedes(b, c)
    ensures Precedes(a, c)
  {
    LexLeqTransitive(Weights(a), Weights(b), Weights(c));
  }

  /** Texts that agree up to a position are ordered by the first characters that differ. */
  lemma {:induction false} PrecedesAt(p: string, x: char, y: char, a: string, b: string)
    requires Weight(ToLowerChar(x)) < Weight(ToLowerChar(y))
    ensures Precedes(p + [x] + a, p + [y] + b) && !Precedes(p + [y] + b, p + [x] + a)
    decreases |p|
  {
    var u, v := p + [x] + a, p + [y] + b;
    WeightsCons(u);
    WeightsCons(v);
    if p == [] {
    } else {
      assert u[0] == v[0] == p[0];
      assert u[1..] == p[1..] + [x] + a && v[1..] == p[1..] + [y] + b;
      PrecedesAt(p[1..], x, y, a, b);
    }
  }

  predicate Sorted(s: seq<string>) {
    forall i, j :: 0 <= i < j < |s| ==> Precedes(s[i], s[j])
  }

  // ---------------------------------------------------------------------------
  // The sort of one group

  /** Inserts `x` before the first element it precedes. */
  function Insert(x: string, s: seq<string>): (r: seq<string>)
    ensures multiset(r) == multiset(s) + multiset{x}
    decreases |s|
  {
    if s == [] then [x]
    else if Precedes(x, s[0]) then [x] + s
    else
      assert s == [s[0]] + s[1..];
      [s[0]] + Insert(x, s[1..])
  }

  lemma {:induction false} InsertSorted(x: string, s: seq<string>)
    requires Sorted(s)
    ensures Sorted(Insert(x, s))
    decreases |s|
  {
    if s == [] {
    } else if Precedes(x, s[0]) {
      forall k | 0 <= k < |s| ensures Precedes(x, s[k]) {
        if k > 0 {
          PrecedesTransitive(x, s[0], s[k]);
        }
      }
      SortedCons(x, s);
    } else {
      PrecedesTotal(x, s[0]);
      var tail := Insert(x, s[1..]);
      SortedTail(s);
      InsertSorted(x, s[1..]);
      forall k | 0 <= k < |tail| ensures Precedes(s[0], tail[k]) {
        InsertMembers(x, s[1..], tail[k]);
        if tail[k] != x {
          var m :| 0 <= m < |s[1..]| && s[1..][m] == tail[k];
          assert s[1..][m] == s[m + 1];
        }
      }
      SortedCons(s[0], tail);
    }
  }

  /** An element of the result of Insert is the inserted one or one of the list. */
  lemma InsertMembers(x: string, s: seq<string>, y: string)
    requires y in Insert(x, s)
    ensures y == x || y in s
  {
    assert y in multiset(Insert(x, s));
  }

  lemma SortedTail(s: seq<string>)
    requires Sorted(s) && s != []
    ensures Sorted(s[1..])
  {
    forall i, j | 0 <= i < j < |s[1..]| ensures Precedes(s[1..][i], s[1..][j]) {
      assert s[1..][i] == s[i + 1] && s[1..][j] == s[j + 1];
    }
  }

  lemma SortedCons(head: string, tail: seq<string>)
    requires Sorted(tail) && forall k :: 0 <= k < |tail| ==> Precedes(head, tail[k])
    ensures Sorted([head] + tail)
  {
    var r := [head] + tail;
    forall i, j | 0 <= i < j < |r| ensures Precedes(r[i], r[j]) {
      if i == 0 {
        assert r[j] == tail[j - 1];
      } else {
        assert r[i] == tail[i - 1] && r[j] == tail[j - 1];
      }
    }
  }

  /** Case-insensitive sort of one group, by insertion. */
  function SortIgnoreCase(s: seq<string>): (r: seq<string>)
    ensures multiset(r) == multiset(s)
    decreases |s|
  {
    if s == [] then []
    else
      assert s == [s[0]] + s[1..];
      Insert(s[0], SortIgnoreCase(s[1..]))
  }

  /** The sort orders the group and keeps its elements: a permutation in case-insensitive order. */
  lemma {:induction false} SortIgnoreCaseSorted(s: seq<string>)
    ensures Sorted(SortIgnoreCase(s))
    ensures |SortIgnoreCase(s)| == |s|
    decreases |s|
  {
    if s != [] {
      SortIgnoreCaseSorted(s[1..]);
      InsertSorted(s[0], SortIgnoreCase(s[1..]));
    }
    assert |multiset(SortIgnoreCase(s))| == |multiset(s)|;
  }

  // ---------------------------------------------------------------------------
  // Partition

  /** The directories of `s`, in their original order. */
  function Directories(s: seq<string>, isDirectory: string -> bool): (r: seq<string>)
    ensures forall x :: x in r ==> isDirectory(x)
    decreases |s|
  {
    if s == [] then []
    else Directories(s[..|s| - 1], isDirectory) + (if isDirectory(s[|s| - 1]) then [s[|s| - 1]] else [])
  }

  /** The files of `s`, in their original order. */
  function Files(s: seq<string>, isDirectory: string -> bool): (r: seq<string>)
    ensures forall x :: x in r ==> !isDirectory(x)
    decreases |s|
  {
    if s == [] then []
    else Files(s[..|s| - 1], isDirectory) + (if isDirectory(s[|s| - 1]) then [] else [s[|s| - 1]])
  }

  /** Every path lands in exactly one group: together the groups hold the list's elements, and an
      element is in the directory group exactly when it is a directory. */
  lemma {:induction false} Partition(s: seq<string>, isDirectory: string -> bool)
    ensures multiset(Directories(s, isDirectory)) + multiset(Files(s, isDirectory)) == multiset(s)
    ensures forall x :: x in s && isDirectory(x) ==> x in Directories(s, isDirectory)
    ensures forall x :: x in s && !isDirectory(x) ==> x in Files(s, isDirectory)
    decreases |s|
  {
    if s != [] {
      var init, last := s[..|s| - 1], s[|s| - 1];
      assert s == init + [last];
      Partition(init, isDirectory);
      forall x | x in s
        ensures isDirectory(x) ==> x in Directories(s, isDirectory)
        ensures !isDirectory(x) ==> x in Files(s, isDirectory)
      {
        if x != last {
          assert x in init;
        }
      }
    }
  }

  /** The list after sorting: the sorted directories, then the sorted files. Sorting keeps the
      elements: the arranged list is a permutation of the original. */
  function Arranged(s: seq<string>, isDirectory: string -> bool): (r: seq<string>)
    ensures multiset(r) == multiset(s)
    ensures |r| == |s|
  {
    Partition(s, isDirectory);
    var r := SortIgnoreCase(Directories(s, isDirectory)) + SortIgnoreCase(Files(s, isDirectory));
    assert |multiset(r)| == |multiset(s)|;
    r
  }

  /** Directories come first: the first `k` entries are directories, the rest are files, and
      each of the two blocks is in case-insensitive order. */
  lemma ArrangedBlocks(s: seq<string>, isDirectory: string -> bool)
    ensures var r, k := Arranged(s, isDirectory), |Directories(s, isDirectory)|;
      k <= |r|
      && (forall i :: 0 <= i < k ==> isDirectory(r[i]))
      && (forall i :: k <= i < |r| ==> !isDirectory(r[i]))
      && Sorted(r[..k]) && Sorted(r[k..])
  {
    var d, f := Directories(s, isDirectory), Files(s, isDirectory);
    var sd, sf := SortIgnoreCase(d), SortIgnoreCase(f);
    SortIgnoreCaseSorted(d);
    SortIgnoreCaseSorted(f);
    SortKeeps(d, isDirectory);
    SortKeeps(f, x => !isDirectory(x));
    BlocksOf(sd, sf, isDirectory);
  }

  /** The sort brings in no new element, so a property of every element survives it. */
  lemma SortKeeps(s: seq<string>, property: string -> bool)
    requires forall x :: x in s ==> property(x)
    ensures forall x :: x in SortIgnoreCase(s) ==> property(x)
  {
    forall x | x in SortIgnoreCase(s) ensures property(x) {
      assert x in multiset(SortIgnoreCase(s));
    }
  }

  lemma BlocksOf(a: seq<string>, b: seq<string>, isDirectory: string -> bool)
    requires forall x :: x in a ==> isDirectory(x)
    requires forall x :: x in b ==> !isDirectory(x)
    ensures forall i :: 0 <= i < |a| ==> isDirectory((a + b)[i])
    ensures forall i :: |a| <= i < |a + b| ==> !isDirectory((a + b)[i])
    ensures (a + b)[..|a|] == a && (a + b)[|a|..] == b
  {
    forall i | 0 <= i < |a| ensures isDirectory((a + b)[i]) {
      assert (a + b)[i] == a[i];
    }
    forall i | |a| <= i < |a + b| ensures !isDirectory((a + b)[i]) {
      assert (a + b)[i] == b[i - |a|];
    }
  }

  /** No directory ever follows a file. */
  lemma DirectoriesBeforeFiles(s: seq<string>, isDirectory: string -> bool, i: int, j: int)
    requires 0 <= i < j < |Arranged(s, isDirectory)|
    requires isDirectory(Arranged(s, isDirectory)[j])
    ensures isDirectory(Arranged(s, isDirectory)[i])
  {
    ArrangedBlocks(s, isDirectory);
  }

  /** A list of fewer than two paths is already arranged. */
  lemma ArrangedShort(s: seq<string>, isDirectory: string -> bool)
    requires |s| < 2
    ensures Arranged(s, isDirectory) == s
  {
    if |s| == 1 {
      assert s[..0] == [];
      assert SortIgnoreCase(s) == Insert(s[0], []) by { assert s[1..] == []; }
      if isDirectory(s[0]) {
        assert Directories(s, isDirectory) == s;
        assert Files(s, isDirectory) == [];
      } else {
        assert Directories(s, isDirectory) == [];
        assert Files(s, isDirectory) == s;
      }
    }
  }

  // ---------------------------------------------------------------------------
  // The list of the sorter's test

  const Cde := "D:\\temp\\dir\\cde"
  const FileDef := "D:\\temp\\dir\\file.def"
  const File2Abc := "D:\\temp\\dir\\file2.abc"
  const FileAbc := "D:\\temp\\dir\\file.abc"
  const Temp2FileAbc := "D:\\temp2\\dir\\file.abc"
  const Abc := "D:\\temp\\dir\\abc"
  const Temp2Fgh := "D:\\temp2\\dir\\fgh"
  const Another := "D:\\temp\\dir\\another file.abc"

  /** Texts that agree before position `k` are ordered by their characters at `k`. */
  lemma PrecedesAtIndex(a: string, b: string, k: nat)
    requires k < |a| && k < |b| && a[..k] == b[..k]
    requires Weight(ToLowerChar(a[k])) < Weight(ToLowerChar(b[k]))
    ensures Precedes(a, b) && !Precedes(b, a)
  {
    assert a == a[..k] + [a[k]] + a[k + 1..];
    assert b == a[..k] + [b[k]] + b[k + 1..];
    PrecedesAt(a[..k], a[k], b[k], a[k + 1..], b[k + 1..]);
  }

  /** A letter outside Latin-1 sorts after the digits and after the Latin letters: `1.txt`
      comes before `šimon.txt`, and `ab` before `šb`. */
  lemma WideLetterOrder(a: string, b: string)
    ensures Precedes(['1'] + a, ['\U{0161}'] + b) && !Precedes(['\U{0161}'] + b, ['1'] + a)
    ensures Precedes(['a'] + a, ['\U{0161}'] + b) && !Precedes(['\U{0161}'] + b, ['a'] + a)
  {
    var e: string := [];
    assert e + ['1'] + a == ['1'] + a && e + ['a'] + a == ['a'] + a && e + ['\U{0161}'] + b == ['\U{0161}'] + b;
    PrecedesAt(e, '1', '\U{0161}', a, b);
    PrecedesAt(e, 'a', '\U{0161}', a, b);
  }

  /** `D:\temp\...` comes before `D:\temp2\...`: the separator sorts before the digit. */
  lemma DirectoriesBeforeTemp2()
    ensures Precedes(Abc, Temp2Fgh) && Precedes(Cde, Temp2Fgh)
  {
    PrecedesAtIndex(Abc, Temp2Fgh, 7);
    PrecedesAtIndex(Cde, Temp2Fgh, 7);
  }

  lemma FilesBeforeTemp2()
    ensures !Precedes(Temp2FileAbc, Another)
    ensures Precedes(FileAbc, Temp2FileAbc) && Precedes(File2Abc, Temp2FileAbc)
  {
    PrecedesAtIndex(Another, Temp2FileAbc, 7);
    PrecedesAtIndex(FileAbc, Temp2FileAbc, 7);
    PrecedesAtIndex(File2Abc, Temp2FileAbc, 7);
  }

  lemma DirectoryOrder()
    ensures !Precedes(Cde, Abc)
  {
    PrecedesAtIndex(Abc, Cde, 12);
  }

  lemma AnotherFirst()
    ensures !Precedes(FileAbc, Another) && !Precedes(File2Abc, Another) && !Precedes(FileDef, Another)
  {
    AnotherBefore(FileAbc);
    AnotherBefore(File2Abc);
    AnotherBefore(FileDef);
  }

  lemma AnotherBefore(f: string)
    requires f == FileAbc || f == File2Abc || f == FileDef
    ensures !Precedes(f, Another)
  {
    PrecedesAtIndex(Another, f, 12);
  }

  /** `file.` comes before `file2`: the dot sorts before the digit. */
  lemma DotBeforeDigit()
    ensures !Precedes(File2Abc, FileAbc)
  {
    PrecedesAtIndex(FileAbc, File2Abc, 16);
  }

  lemma DefBeforeDigit()
    ensures Precedes(FileDef, File2Abc)
  {
    PrecedesAtIndex(FileDef, File2Abc, 16);
  }

  lemma ExtensionOrder()
    ensures !Precedes(FileDef, FileAbc)
  {
    PrecedesAtIndex(FileAbc, FileDef, 17);
  }

  lemma DirectoryStep(s: seq<string>, x: string, isDirectory: string -> bool)
    requires isDirectory(x)
    ensures Directories(s + [x], isDirectory) == Directories(s, isDirectory) + [x]
    ensures Files(s + [x], isDirectory) == Files(s, isDirectory)
  {
    assert (s + [x])[..|s|] == s;
  }

  lemma FileStep(s: seq<string>, x: string, isDirectory: string -> bool)
    requires !isDirectory(x)
    ensures Directories(s + [x], isDirectory) == Directories(s, isDirectory)
    ensures Files(s + [x], isDirectory) == Files(s, isDirectory) + [x]
  {
    assert (s + [x])[..|s|] == s;
  }

  /** The groups of a list shaped like the test's: three directories among five files. The
      lists are written as concatenations of one-element lists. */
  lemma ExampleGroups(d0: string, f1: string, f2: string, f3: string, f4: string, d5: string, d6: string, f7: string,
                      isDirectory: string -> bool)
    requires isDirectory(d0) && isDirectory(d5) && isDirectory(d6)
    requires !isDirectory(f1) && !isDirectory(f2) && !isDirectory(f3) && !isDirectory(f4) && !isDirectory(f7)
    ensures Directories([d0] + [f1] + [f2] + [f3] + [f4] + [d5] + [d6] + [f7], isDirectory) == [d0] + [d5] + [d6]
    ensures Files([d0] + [f1] + [f2] + [f3] + [f4] + [d5] + [d6] + [f7], isDirectory) == [f1] + [f2] + [f3] + [f4] + [f7]
  {
    DirectoryStep([], d0, isDirectory);
    assert [] + [d0] == [d0];
    FileStep([d0], f1, isDirectory);
    FileStep([d0] + [f1], f2, isDirectory);
    FileStep([d0] + [f1] + [f2], f3, isDirectory);
    FileStep([d0] + [f1] + [f2] + [f3], f4, isDirectory);
    DirectoryStep([d0] + [f1] + [f2] + [f3] + [f4], d5, isDirectory);
    DirectoryStep([d0] + [f1] + [f2] + [f3] + [f4] + [d5], d6, isDirectory);
    FileStep([d0] + [f1] + [f2] + [f3] + [f4] + [d5] + [d6], f7, isDirectory);
    assert [] + [f1] == [f1];
  }

  /** One more element in front of a group is inserted into the sorted rest. */
  lemma SortLevel(x: string, s: seq<string>, sorted: seq<string>, r: seq<string>)
    requires SortIgnoreCase(s) == sorted && Insert(x, sorted) == r
    ensures SortIgnoreCase([x] + s) == r
  {
    assert ([x] + s)[1..] == s;
  }

  lemma SortSingle(x: string)
    ensures SortIgnoreCase([x]) == [x]
  {
    assert [x][1..] == [];
  }

  lemma InsertInFront(x: string, t: seq<string>)
    requires t != [] && Precedes(x, t[0])
    ensures Insert(x, t) == [x] + t
  {
  }

  /** An element that does not precede the head is inserted behind it. */
  lemma InsertBehind(x: string, h: string, t: seq<string>, r: seq<string>)
    requires !Precedes(x, h) && Insert(x, t) == r
    ensures Insert(x, [h] + t) == [h] + r
  {
    assert ([h] + t)[1..] == t;
  }

  lemma InsertAtEnd(x: string, h: string)
    requires !Precedes(x, h)
    ensures Insert(x, [h]) == [h] + [x]
  {
    assert [h][1..] == [];
  }

  /** Three directories given in the order `c`, `a`, `t` come out as `a`, `c`, `t`. */
  lemma SortedDirectoriesExample(c: string, a: string, t: string)
    requires Precedes(a, t) && Precedes(c, t) && !Precedes(c, a)
    ensures SortIgnoreCase([c] + ([a] + [t])) == [a] + ([c] + [t])
  {
    SortSingle(t);
    InsertInFront(a, [t]);
    SortLevel(a, [t], [t], [a] + [t]);
    InsertInFront(c, [t]);
    InsertBehind(c, a, [t], [c] + [t]);
    SortLevel(c, [a] + [t], [a] + [t], [a] + ([c] + [t]));
  }

  lemma LastFilesSorted(abc: string, t2: string, another: string)
    requires !Precedes(t2, another) && !Precedes(abc, another) && Precedes(abc, t2)
    ensures SortIgnoreCase([abc] + ([t2] + [another])) == [another] + ([abc] + [t2])
  {
    SortSingle(another);
    InsertAtEnd(t2, another);
    SortLevel(t2, [another], [another], [another] + [t2]);
    InsertInFront(abc, [t2]);
    InsertBehind(abc, another, [t2], [abc] + [t2]);
    SortLevel(abc, [t2] + [another], [another] + [t2], [another] + ([abc] + [t2]));
  }

  lemma FileTwoSorted(two: string, abc: string, t2: string, another: string)
    requires SortIgnoreCase([abc] + ([t2] + [another])) == [another] + ([abc] + [t2])
    requires !Precedes(two, another) && !Precedes(two, abc) && Precedes(two, t2)
    ensures SortIgnoreCase([two] + ([abc] + ([t2] + [another]))) == [another] + ([abc] + ([two] + [t2]))
  {
    InsertInFront(two, [t2]);
    InsertBehind(two, abc, [t2], [two] + [t2]);
    InsertBehind(two, another, [abc] + [t2], [abc] + ([two] + [t2]));
    SortLevel(two, [abc] + ([t2] + [another]), [another] + ([abc] + [t2]), [another] + ([abc] + ([two] + [t2])));
  }

  lemma FileDefSorted(def: string, two: string, abc: string, t2: string, another: string)
    requires SortIgnoreCase([two] + ([abc] + ([t2] + [another]))) == [another] + ([abc] + ([two] + [t2]))
    requires !Precedes(def, another) && !Precedes(def, abc) && Precedes(def, two)
    ensures SortIgnoreCase([def] + ([two] + ([abc] + ([t2] + [another]))))
         == [another] + ([abc] + ([def] + ([two] + [t2])))
  {
    var tail := [two] + [t2];
    InsertInFront(def, tail);
    InsertBehind(def, abc, tail, [def] + tail);
    InsertBehind(def, another, [abc] + tail, [abc] + ([def] + tail));
    SortLevel(def, [two] + ([abc] + ([t2] + [another])), [another] + ([abc] + tail), [another] + ([abc] + ([def] + tail)));
  }

  /** Five files in the test's order come out as `another`, `file.abc`, `file.def`,
      `file2.abc`, `temp2\...`. */
  lemma SortedFilesExample(def: string, two: string, abc: string, t2: string, another: string)
    requires !Precedes(t2, another) && !Precedes(abc, another) && !Precedes(two, another) && !Precedes(def, another)
    requires Precedes(abc, t2) && Precedes(two, t2)
    requires !Precedes(two, abc) && !Precedes(def, abc) && Precedes(def, two)
    ensures SortIgnoreCase([def] + ([two] + ([abc] + ([t2] + [another]))))
         == [another] + ([abc] + ([def] + ([two] + [t2])))
  {
    LastFilesSorted(abc, t2, another);
    FileTwoSorted(two, abc, t2, another);
    FileDefSorted(def, two, abc, t2, another);
  }

  /** A list with the test's shape and the test's comparisons between its paths is arranged
      as the test expects. */
  lemma ArrangedShape(cde: string, def: string, two: string, abc: string, t2abc: string, dirAbc: string,
                      t2fgh: string, another: string, isDirectory: string -> bool)
    requires isDirectory(cde) && isDirectory(dirAbc) && isDirectory(t2fgh)
    requires !isDirectory(def) && !isDirectory(two) && !isDirectory(abc) && !isDirectory(t2abc) && !isDirectory(another)
    requires Precedes(dirAbc, t2fgh) && Precedes(cde, t2fgh) && !Precedes(cde, dirAbc)
    requires !Precedes(t2abc, another) && !Precedes(abc, another) && !Precedes(two, another) && !Precedes(def, another)
    requires Precedes(abc, t2abc) && Precedes(two, t2abc)
    requires !Precedes(two, abc) && !Precedes(def, abc) && Precedes(def, two)
    ensures Arranged([cde] + [def] + [two] + [abc] + [t2abc] + [dirAbc] + [t2fgh] + [another], isDirectory)
      == [dirAbc] + [cde] + [t2fgh] + [another] + [abc] + [def] + [two] + [t2abc]
  {
    ExampleGroups(cde, def, two, abc, t2abc, dirAbc, t2fgh, another, isDirectory);
    SortedDirectoriesExample(cde, dirAbc, t2fgh);
    RightNested3(cde, dirAbc, t2fgh);
    SortedFilesExample(def, two, abc, t2abc, another);
    RightNested5(def, two, abc, t2abc, another);
    RightNested3(dirAbc, cde, t2fgh);
    RightNested5(another, abc, def, two, t2abc);
    Concat3And5(dirAbc, cde, t2fgh, another, abc, def, two, t2abc);
  }

  lemma RightNested3(a: string, b: string, c: string)
    ensures [a] + [b] + [c] == [a] + ([b] + [c])
  {
  }

  lemma RightNested5(a: string, b: string, c: string, d: string, e: string)
    ensures [a] + [b] + [c] + [d] + [e] == [a] + ([b] + ([c] + ([d] + [e])))
  {
  }

  lemma Concat3And5(a: string, b: string, c: string, d: string, e: string, f: string, g: string, h: string)
    ensures ([a] + [b] + [c]) + ([d] + [e] + [f] + [g] + [h]) == [a] + [b] + [c] + [d] + [e] + [f] + [g] + [h]
  {
  }

  /** The sorter's test: with the directory test of the test (paths without `file` are
      directories), the list comes out as the directories `abc`, `cde`, `temp2\dir\fgh` and
      then the files `another file.abc`, `file.abc`, `file.def`, `file2.abc`, `temp2\dir\file.abc`. */
  lemma ArrangedExample(isDirectory: string -> bool)
    requires isDirectory(Cde) && isDirectory(Abc) && isDirectory(Temp2Fgh)
    requires !isDirectory(FileDef) && !isDirectory(File2Abc) && !isDirectory(FileAbc)
    requires !isDirectory(Temp2FileAbc) && !isDirectory(Another)
    ensures Arranged([Cde] + [FileDef] + [File2Abc] + [FileAbc] + [Temp2FileAbc] + [Abc] + [Temp2Fgh] + [Another], isDirectory)
      == [Abc] + [Cde] + [Temp2Fgh] + [Another] + [FileAbc] + [FileDef] + [File2Abc] + [Temp2FileAbc]
  {
    DirectoriesBeforeTemp2();
    DirectoryOrder();
    FilesBeforeTemp2();
    AnotherFirst();
    DotBeforeDigit();
    DefBeforeDigit();
    ExtensionOrder();
    ArrangedShape(Cde, FileDef, File2Abc, FileAbc, Temp2FileAbc, Abc, Temp2Fgh, Another, isDirectory);
  }

  // ---------------------------------------------------------------------------
  // The sorter

  class FilenameSorter {
    /** Decides whether a path is a directory (the file system, or a stand-in). */
    const isDirectory: string -> bool

    constructor (isDirectory: string -> bool)
      ensures this.isDirectory == isDirectory
    {
      this.isDirectory := isDirectory;
    }

    /** Sorts the list in place: nothing happens to a missing list or one with fewer than two
        entries; otherwise the list becomes the sorted directories followed by the sorted files. */
    method Sort(filenames: array?<string>)
      modifies filenames
      ensures filenames != null && filenames.Length < 2 ==> filenames[..] == old(filenames[..])
      ensures filenames != null ==> filenames[..] == Arranged(old(filenames[..]), isDirectory)
    {
      if filenames == null || filenames.Length < 2 {
        if filenames != null {
          ArrangedShort(filenames[..], isDirectory);
        }
        return;
      }

      var directories, files := Group(filenames);
      directories := SortIgnoreCase(directories);
      files := SortIgnoreCase(files);
      assert directories + files == Arranged(filenames[..], isDirectory);
      Refill(filenames, directories, files);
    }

    /** Splits the list into directories and files, testing each path once. */
    method Group(filenames: array<string>) returns (directories: seq<string>, files: seq<string>)
      ensures directories == Directories(filenames[..], isDirectory)
      ensures files == Files(filenames[..], isDirectory)
    {
      directories, files := [], [];
      for index := 0 to filenames.Length
        invariant directories == Directories(filenames[..index], isDirectory)
        invariant files == Files(filenames[..index], isDirectory)
      {
        var filename := filenames[index];
        assert filenames[..index + 1][..index] == filenames[..index];
        if isDirectory(filename) {
          directories := directories + [filename];
        } else {
          files := files + [filename];
        }
      }
      assert filenames[..filenames.Length] == filenames[..];
    }

    /** Clears the list and adds the directories and then the files. */
    method Refill(filenames: array<string>, directories: seq<string>, files: seq<string>)
      requires filenames.Length == |directories| + |files|
      modifies filenames
      ensures filenames[..] == directories + files
    {
      ghost var arranged := directories + files;
      for index := 0 to |directories|
        invariant filenames[..index] == arranged[..index]
      {
        filenames[index] := directories[index];
        assert filenames[..index + 1] == filenames[..index] + [arranged[index]];
        assert arranged[..index + 1] == arranged[..index] + [arranged[index]];
      }
      for index := 0 to |files|
        invariant filenames[..|directories| + index] == arranged[..|directories| + index]
      {
        filenames[|directories| + index] := files[index];
        var n := |directories| + index;
        assert filenames[..n + 1] == filenames[..n] + [arranged[n]];
        assert arranged[..n + 1] == arranged[..n] + [arranged[n]];
      }
      assert filenames[..] == filenames[..|arranged|];
    }
  }
}
