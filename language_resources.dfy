/**
  The reader of language files. Each line of such a file is a comment
  (starting with `//` after optional white space), an invalid line (skipped),
  or an entry "key text": the key is the front of the trimmed line up to the
  first space, the text is the rest without leading white space. The tags
  `\r\n` and `\n` in a text stand for a line break. Keys are compared ignoring
  case, and a later entry overwrites an earlier one.
 */
module LanguageResources {
  import opened Wrappers
  import opened Strings

  /** One entry of a language file. */
  datatype ResourceEntry = ResourceEntry(key: string, text: string)

  /** The two-character tag `\n`, the four-character tag `\r\n` and a real line break. */
  const NewlineTag: string := ['\\', 'n']
  const CrLfTag: string := ['\\', 'r', '\\', 'n']
  const CrLf: string := ['\r', '\n']

  // ---------------------------------------------------------------------------
  // Lines

  /** A comment line: `//` after optional leading white space. */
  function IsComment(line: string): (r: bool)
    ensures r <==> exists k :: 0 <= k && k + 2 <= |line| && IsNullOrWhiteSpace(line[..k]) && line[k] == '/' && line[k + 1] == '/'
  {
    CommentAfterIndent(line);
    StartsWith(TrimStart(line), ['/', '/'])
  }

  /** The text after the leading white space starts with `//` exactly when `//` follows some
      all-white-space front of the line. */
  lemma CommentAfterIndent(line: string)
    ensures StartsWith(TrimStart(line), ['/', '/'])
        <==> exists k :: 0 <= k && k + 2 <= |line| && IsNullOrWhiteSpace(line[..k]) && line[k] == '/' && line[k + 1] == '/'
  {
    var t := TrimStart(line);
    var m := |line| - |t|;
    assert IsNullOrWhiteSpace(line[..m]);
    if StartsWith(t, ['/', '/']) {
      assert line[m] == t[0] && line[m + 1] == t[1];
    }
    forall k | 0 <= k && k + 2 <= |line| && IsNullOrWhiteSpace(line[..k]) && line[k] == '/' && line[k + 1] == '/'
      ensures StartsWith(t, ['/', '/'])
    {
      if k < m {
        assert line[k] == line[..m][k];
      } else if k > m {
        assert line[m] == line[..k][m];
      }
      assert t[0] == line[k] && t[1] == line[k + 1];
    }
  }

  /** An indented `//` makes a comment. */
  lemma IndentedComment(indent: string, rest: string)
    requires IsNullOrWhiteSpace(indent)
    ensures IsComment(indent + ['/', '/'] + rest)
  {
    var line := indent + ['/', '/'] + rest;
    TrimStartOver(indent, ['/', '/'] + rest);
    assert line == indent + (['/', '/'] + rest);
  }

  /** A line whose first visible character is not `/` is no comment. */
  lemma NotComment(indent: string, rest: string)
    requires IsNullOrWhiteSpace(indent) && rest != [] && !IsWhiteSpace(rest[0]) && rest[0] != '/'
    ensures !IsComment(indent + rest)
  {
    TrimStartOver(indent, rest);
  }

  lemma {:induction false} TrimStartOver(indent: string, rest: string)
    requires IsNullOrWhiteSpace(indent) && (rest == [] || !IsWhiteSpace(rest[0]))
    ensures TrimStart(indent + rest) == rest
    decreases |indent|
  {
    if indent == [] {
      assert indent + rest == rest;
    } else {
      assert (indent + rest)[1..] == indent[1..] + rest;
      TrimStartOver(indent[1..], rest);
    }
  }

  /** Splits a line into key and text, or rejects it: a blank line, and a trimmed line without a
      space (or whose first space comes first), are rejected. */
  function TrySplitLine(line: string): (r: Option<ResourceEntry>)
    ensures IsNullOrWhiteSpace(line) ==> r == None
    ensures ' ' !in Trim(line) ==> r == None
  {
    if IsNullOrWhiteSpace(line) then None else SplitTrimmed(Trim(line))
  }

  /** The split of the trimmed line at its first space. */
  function SplitTrimmed(trimmed: string): (r: Option<ResourceEntry>)
    ensures ' ' !in trimmed ==> r == None
  {
    var delimiterPos := IndexOf(trimmed, ' ');
    if delimiterPos < 1 then None
    else Some(ResourceEntry(TrimEnd(trimmed[..delimiterPos]), TrimStart(trimmed[delimiterPos + 1..])))
  }

  /** An accepted line gives a non-empty key without spaces or white space at its ends, and a
      non-empty text without white space at its ends. */
  lemma TrySplitLineParts(line: string)
    requires TrySplitLine(line).Some?
    ensures var e := TrySplitLine(line).value;
      e.key != [] && ' ' !in e.key && !IsWhiteSpace(e.key[0]) && !IsWhiteSpace(e.key[|e.key| - 1])
      && e.text != [] && !IsWhiteSpace(e.text[0]) && !IsWhiteSpace(e.text[|e.text| - 1])
  {
    TrimmedEnds(line);
    SplitTrimmedParts(Trim(line));
  }

  lemma SplitTrimmedParts(trimmed: string)
    requires trimmed != [] && !IsWhiteSpace(trimmed[0]) && !IsWhiteSpace(trimmed[|trimmed| - 1])
    requires SplitTrimmed(trimmed).Some?
    ensures var e := SplitTrimmed(trimmed).value;
      e.key != [] && ' ' !in e.key && !IsWhiteSpace(e.key[0]) && !IsWhiteSpace(e.key[|e.key| - 1])
      && e.text != [] && !IsWhiteSpace(e.text[0]) && !IsWhiteSpace(e.text[|e.text| - 1])
  {
    var delimiterPos := IndexOf(trimmed, ' ');
    assert 1 <= delimiterPos < |trimmed| && trimmed[delimiterPos] == ' ' && ' ' !in trimmed[..delimiterPos];
    var e := SplitTrimmed(trimmed).value;
    assert e == ResourceEntry(TrimEnd(trimmed[..delimiterPos]), TrimStart(trimmed[delimiterPos + 1..]));
    KeyPart(trimmed, delimiterPos);
    TextPart(trimmed, delimiterPos);
  }

  /** A line that is not blank trims to a text with visible ends. */
  lemma TrimmedEnds(line: string)
    requires !IsNullOrWhiteSpace(line)
    ensures var t := Trim(line); t != [] && !IsWhiteSpace(t[0]) && !IsWhiteSpace(t[|t| - 1])
  {
    var a := TrimStartBy(line, IsWhiteSpace);
    var t := TrimEndBy(a, IsWhiteSpace);
    assert t[0] == a[0];
  }

  lemma KeyPart(trimmed: string, delimiterPos: int)
    requires 1 <= delimiterPos < |trimmed| && ' ' !in trimmed[..delimiterPos] && !IsWhiteSpace(trimmed[0])
    ensures var key := TrimEnd(trimmed[..delimiterPos]);
      key != [] && ' ' !in key && !IsWhiteSpace(key[0]) && !IsWhiteSpace(key[|key| - 1])
  {
    var part := trimmed[..delimiterPos];
    assert part[0] == trimmed[0];
    var key := TrimEndBy(part, IsWhiteSpace);
    assert key[0] == part[0];
    forall i | 0 <= i < |key| ensures key[i] != ' ' {
      assert key[i] == part[i];
    }
  }

  lemma TextPart(trimmed: string, delimiterPos: int)
    requires 0 <= delimiterPos < |trimmed| && trimmed[delimiterPos] == ' ' && !IsWhiteSpace(trimmed[|trimmed| - 1])
    ensures var text := TrimStart(trimmed[delimiterPos + 1..]);
      text != [] && !IsWhiteSpace(text[0]) && !IsWhiteSpace(text[|text| - 1])
  {
    var part := trimmed[delimiterPos + 1..];
    assert part != [] && part[|part| - 1] == trimmed[|trimmed| - 1];
    var text := TrimStartBy(part, IsWhiteSpace);
    assert text[|text| - 1] == part[|part| - 1];
  }

  /** A line `key gap text` is split back into its key and text, whatever the white space gap
      between them, as long as the gap starts with a space. */
  lemma SplitLineOfEntry(key: string, gap: string, text: string)
    requires key != [] && ' ' !in key && !IsWhiteSpace(key[0]) && !IsWhiteSpace(key[|key| - 1])
    requires gap != [] && gap[0] == ' ' && IsNullOrWhiteSpace(gap)
    requires text != [] && !IsWhiteSpace(text[0]) && !IsWhiteSpace(text[|text| - 1])
    ensures TrySplitLine(key + gap + text) == Some(ResourceEntry(key, text))
  {
    var line := key + (gap + text);
    assert line == key + gap + text;
    EntryLineTrimmed(key, gap, text);
    SplitEntryLine(key, gap, text);
  }

  lemma SplitEntryLine(key: string, gap: string, text: string)
    requires key != [] && ' ' !in key && !IsWhiteSpace(key[|key| - 1])
    requires gap != [] && gap[0] == ' ' && IsNullOrWhiteSpace(gap)
    requires text != [] && !IsWhiteSpace(text[0])
    ensures SplitTrimmed(key + (gap + text)) == Some(ResourceEntry(key, text))
  {
    FirstSpaceAfterKey(key, gap, text);
    EntryLineParts(key, gap, text);
  }

  lemma EntryLineTrimmed(key: string, gap: string, text: string)
    requires key != [] && !IsWhiteSpace(key[0]) && text != [] && !IsWhiteSpace(text[|text| - 1])
    ensures !IsNullOrWhiteSpace(key + (gap + text)) && Trim(key + (gap + text)) == key + (gap + text)
  {
    var line := key + (gap + text);
    assert line[0] == key[0] && line[|line| - 1] == text[|text| - 1];
    VisibleStartNotBlank(line);
    TrimByKeeps(line, IsWhiteSpace);
  }

  lemma EntryLineParts(key: string, gap: string, text: string)
    requires key != [] && !IsWhiteSpace(key[|key| - 1])
    requires gap != [] && IsNullOrWhiteSpace(gap) && text != [] && !IsWhiteSpace(text[0])
    ensures TrimEnd((key + (gap + text))[..|key|]) == key
    ensures TrimStart((key + (gap + text))[|key| + 1..]) == text
  {
    assert (key + (gap + text))[..|key|] == key;
    DropFront(key, gap, text);
    TrimStartOver(gap[1..], text);
  }

  lemma DropFront(key: string, gap: string, text: string)
    requires gap != []
    ensures (key + (gap + text))[|key| + 1..] == gap[1..] + text
  {
    assert (key + (gap + text))[|key|..] == gap + text;
    assert (gap + text)[1..] == gap[1..] + text;
  }

  lemma VisibleStartNotBlank(line: string)
    requires line != [] && !IsWhiteSpace(line[0])
    ensures !IsNullOrWhiteSpace(line)
  {
  }

  lemma FirstSpaceAfterKey(key: string, gap: string, text: string)
    requires ' ' !in key && gap != [] && gap[0] == ' '
    ensures IndexOf(key + (gap + text), ' ') == |key|
  {
    var s := key + (gap + text);
    assert s[|key|] == gap[0];
    assert s[..|key|] == key;
  }

  // ---------------------------------------------------------------------------
  // Special tags

  /** Turns the tags `\r\n` and then `\n` into line breaks; a text without `\n` stays as it is. */
  function ReplaceSpecialTags(text: string): (r: string)
    ensures !Contains(text, NewlineTag) ==> r == text
  {
    if Contains(text, NewlineTag) then Replace(Replace(text, CrLfTag, CrLf), NewlineTag, CrLf)
    else text
  }

  /** The first character of a replacement's result comes from the input or the replacement. */
  lemma ReplaceFirst(s: string, pattern: string, replacement: string)
    requires pattern != [] && replacement != [] && s != []
    ensures Replace(s, pattern, replacement) != []
    ensures Replace(s, pattern, replacement)[0] in {s[0], replacement[0]}
  {
  }

  /** Replacing the tag `\n` by a line break leaves no tag `\n` behind. */
  lemma {:induction false} NoNewlineTagLeft(s: string)
    ensures !Contains(Replace(s, NewlineTag, CrLf), NewlineTag)
    decreases |s|
  {
    var r := Replace(s, NewlineTag, CrLf);
    if |s| < 2 {
      if s != [] {
        assert r[1..] == [];
      }
    } else if s[..2] == NewlineTag {
      var rest := Replace(s[2..], NewlineTag, CrLf);
      NoNewlineTagLeft(s[2..]);
      assert r == CrLf + rest;
      NoNewlineTagAfterBreak(rest);
    } else {
      var rest := Replace(s[1..], NewlineTag, CrLf);
      NoNewlineTagLeft(s[1..]);
      assert r == [s[0]] + rest;
      if s[0] == '\\' {
        assert s[1] != 'n' by { assert s[..2] == [s[0], s[1]]; }
        ReplaceFirst(s[1..], NewlineTag, CrLf);
      }
      NoNewlineTagAfterChar(s[0], rest);
    }
  }

  lemma NoNewlineTagAfterBreak(rest: string)
    requires !Contains(rest, NewlineTag)
    ensures !Contains(CrLf + rest, NewlineTag)
  {
    var r := CrLf + rest;
    assert r[1..] == [CrLf[1]] + rest;
    assert r[1..][1..] == rest;
  }

  lemma NoNewlineTagAfterChar(c: char, rest: string)
    requires !Contains(rest, NewlineTag)
    requires c == '\\' ==> rest == [] || rest[0] != 'n'
    ensures !Contains([c] + rest, NewlineTag)
  {
    var r := [c] + rest;
    assert r[1..] == rest;
    if rest != [] {
      assert r[..2] == [c, rest[0]];
    }
  }

  /** After the tags are replaced, no tag `\n` is left. */
  lemma ReplaceSpecialTagsRemovesTags(text: string)
    ensures !Contains(ReplaceSpecialTags(text), NewlineTag)
  {
    if Contains(text, NewlineTag) {
      NoNewlineTagLeft(Replace(text, CrLfTag, CrLf));
    }
  }

  /** A pattern occurs where it is written. */
  lemma {:induction false} ContainsAt(a: string, pattern: string, b: string)
    ensures Contains(a + pattern + b, pattern)
    decreases |a|
  {
    var s := a + pattern + b;
    if a == [] {
      assert s[..|pattern|] == pattern;
    } else {
      assert s[1..] == a[1..] + pattern + b;
      ContainsAt(a[1..], pattern, b);
    }
  }

  lemma NoBackslashUnchanged(s: string, pattern: string, replacement: string)
    requires pattern != [] && pattern[0] == '\\' && '\\' !in s
    ensures Replace(s, pattern, replacement) == s
  {
    ReplaceSkip(s, [], pattern, replacement);
    assert s + [] == s;
  }

  /** The tag `\n` between plain text becomes one line break. */
  lemma NewlineTagBetween(a: string, b: string)
    requires '\\' !in a && '\\' !in b
    ensures ReplaceSpecialTags(a + NewlineTag + b) == a + CrLf + b
  {
    ContainsAt(a, NewlineTag, b);
    var s := a + NewlineTag + b;
    assert s == a + (NewlineTag + b);
    NoCrLfTagAfter(a, b);
    ReplaceSkip(a, NewlineTag + b, NewlineTag, CrLf);
    ReplaceHit(b, NewlineTag, CrLf);
    NoBackslashUnchanged(b, NewlineTag, CrLf);
  }

  lemma NoCrLfTagAfter(a: string, b: string)
    requires '\\' !in a && '\\' !in b
    ensures Replace(a + (NewlineTag + b), CrLfTag, CrLf) == a + (NewlineTag + b)
  {
    var t := NewlineTag + b;
    ReplaceSkip(a, t, CrLfTag, CrLf);
    assert t[1] == 'n';
    ReplaceMissAtFront(t, CrLfTag, CrLf);
    assert t[1..] == ['n'] + b;
    NoBackslashUnchanged(['n'] + b, CrLfTag, CrLf);
    assert [t[0]] + (['n'] + b) == t;
  }

  /** The tag `\r\n` between plain text becomes one line break, not two. */
  lemma CrLfTagBetween(a: string, b: string)
    requires '\\' !in a && '\\' !in b
    ensures ReplaceSpecialTags(a + CrLfTag + b) == a + CrLf + b
  {
    CrLfTagContainsNewlineTag(a, b);
    CrLfTagReplaced(a, b);
    NoBackslashUnchanged(a + CrLf + b, NewlineTag, CrLf);
  }

  lemma CrLfTagContainsNewlineTag(a: string, b: string)
    ensures Contains(a + CrLfTag + b, NewlineTag)
  {
    assert a + CrLfTag + b == (a + ['\\', 'r']) + NewlineTag + b;
    ContainsAt(a + ['\\', 'r'], NewlineTag, b);
  }

  lemma CrLfTagReplaced(a: string, b: string)
    requires '\\' !in a && '\\' !in b
    ensures Replace(a + CrLfTag + b, CrLfTag, CrLf) == a + CrLf + b
  {
    assert a + CrLfTag + b == a + (CrLfTag + b);
    ReplaceSkip(a, CrLfTag + b, CrLfTag, CrLf);
    ReplaceHit(b, CrLfTag, CrLf);
    NoBackslashUnchanged(b, CrLfTag, CrLf);
    assert a + (CrLf + b) == a + CrLf + b;
  }

  // ---------------------------------------------------------------------------
  // Reading a file

  /** The dictionary of texts: the case-folded key selects an entry holding the key as first
      written and the latest text. */
  type Resources = map<string, ResourceEntry>

  /** The text stored for a key, compared ignoring case. */
  function Lookup(resources: Resources, key: string): Option<string> {
    if ToLower(key) in resources then Some(resources[ToLower(key)].text) else None
  }

  /** The entry a line defines, if it is neither a comment nor invalid. */
  function Definition(line: string): (r: Option<ResourceEntry>)
    ensures IsComment(line) ==> r == None
    ensures r.Some? ==> TrySplitLine(line).Some? && r.value.key == TrySplitLine(line).value.key
  {
    if IsComment(line) then None
    else match TrySplitLine(line)
      case None => None
      case Some(entry) => Some(ResourceEntry(entry.key, ReplaceSpecialTags(entry.text)))
  }

  /** Storing one entry: a new key (ignoring case) is added with its text; an existing one keeps
      the key as first written and gets the new text; all other keys keep their entries. */
  function Put(resources: Resources, entry: ResourceEntry): (r: Resources)
    ensures ToLower(entry.key) in r && r[ToLower(entry.key)].text == entry.text
    ensures ToLower(entry.key) in resources ==> r[ToLower(entry.key)].key == resources[ToLower(entry.key)].key
    ensures ToLower(entry.key) !in resources ==> r[ToLower(entry.key)].key == entry.key
    ensures forall k :: k != ToLower(entry.key) ==> (k in r <==> k in resources) && (k in r ==> r[k] == resources[k])
  {
    var folded := ToLower(entry.key);
    var key := if folded in resources then resources[folded].key else entry.key;
    resources[folded := ResourceEntry(key, entry.text)]
  }

  /** The entry each line defines, line by line. */
  function Definitions(lines: seq<string>): (r: seq<Option<ResourceEntry>>)
    ensures |r| == |lines| && forall j :: 0 <= j < |lines| ==> r[j] == Definition(lines[j])
  {
    seq(|lines|, j requires 0 <= j < |lines| => Definition(lines[j]))
  }

  /** The dictionary the entries build, one after another. */
  function Collect(definitions: seq<Option<ResourceEntry>>): Resources
    decreases |definitions|
  {
    if definitions == [] then map[]
    else
      var resources := Collect(definitions[..|definitions| - 1]);
      match definitions[|definitions| - 1]
        case None => resources
        case Some(entry) => Put(resources, entry)
  }

  /** Storing one line: its entry, if it defines one. */
  function Store(resources: Resources, line: string): Resources {
    match Definition(line)
      case None => resources
      case Some(entry) => Put(resources, entry)
  }

  /** The dictionary a sequence of lines builds, line after line. */
  function ResourcesOf(lines: seq<string>): Resources
    decreases |lines|
  {
    if lines == [] then map[] else Store(ResourcesOf(lines[..|lines| - 1]), lines[|lines| - 1])
  }

  /** Reading the lines is collecting their entries. */
  lemma {:induction false} ResourcesOfDefinitions(lines: seq<string>)
    ensures ResourcesOf(lines) == Collect(Definitions(lines))
    decreases |lines|
  {
    if lines != [] {
      var init := lines[..|lines| - 1];
      ResourcesOfDefinitions(init);
      assert Definitions(lines)[..|lines| - 1] == Definitions(init);
    }
  }

  /** Reads the lines one after another into the dictionary. */
  method ReadFromStream(lines: seq<string>) returns (result: Resources)
    ensures result == ResourcesOf(lines)
  {
    result := map[];
    var index := 0;
    while index < |lines|
      invariant 0 <= index <= |lines|
      invariant result == ResourcesOf(lines[..index])
    {
      var line := lines[index];
      assert lines[..index + 1][..index] == lines[..index];
      var definition := ReadLine(line);
      if definition.Some? {
        result := Put(result, definition.value);
      }
      index := index + 1;
    }
    assert lines[..|lines|] == lines;
  }

  /** The entry of one line: comments are skipped, a valid line gives its key and its text with the
      special tags replaced. */
  method ReadLine(line: string) returns (definition: Option<ResourceEntry>)
    ensures definition == Definition(line)
  {
    definition := None;
    if !IsComment(line) {
      var split := TrySplitLine(line);
      if split.Some? {
        var resText := ReplaceSpecialTags(split.value.text);
        definition := Some(ResourceEntry(split.value.key, resText));
      }
    }
  }

  /** Every stored entry sits under its own case-folded key. */
  lemma {:induction false} EntriesUnderFoldedKey(definitions: seq<Option<ResourceEntry>>)
    ensures forall k :: k in Collect(definitions) ==> ToLower(Collect(definitions)[k].key) == k
    decreases |definitions|
  {
    if definitions != [] {
      EntriesUnderFoldedKey(definitions[..|definitions| - 1]);
    }
  }

  /** An entry for `key`, ignoring case. */
  predicate DefinesKey(definition: Option<ResourceEntry>, key: string) {
    definition.Some? && EqualsIgnoreCase(definition.value.key, key)
  }

  /** The lookup after one more entry: its text when it is for the key (ignoring case),
      otherwise what was there before. */
  lemma LookupAfter(definitions: seq<Option<ResourceEntry>>, definition: Option<ResourceEntry>, key: string)
    ensures Lookup(Collect(definitions + [definition]), key) ==
      if DefinesKey(definition, key) then Some(definition.value.text) else Lookup(Collect(definitions), key)
  {
    assert (definitions + [definition])[..|definitions|] == definitions;
  }

  /** The last entry for a key wins, whatever entries for other keys follow. */
  lemma {:induction false} LastEntryWins(definitions: seq<Option<ResourceEntry>>, i: nat, key: string)
    requires i < |definitions| && DefinesKey(definitions[i], key)
    requires forall j :: i < j < |definitions| ==> !DefinesKey(definitions[j], key)
    ensures Lookup(Collect(definitions), key) == Some(definitions[i].value.text)
    decreases |definitions|
  {
    var init := definitions[..|definitions| - 1];
    assert definitions == init + [definitions[|definitions| - 1]];
    LookupAfter(init, definitions[|definitions| - 1], key);
    if i < |definitions| - 1 {
      LastEntryWins(init, i, key);
    }
  }

  /** A key without an entry is missing. */
  lemma {:induction false} MissingKey(definitions: seq<Option<ResourceEntry>>, key: string)
    requires forall j :: 0 <= j < |definitions| ==> !DefinesKey(definitions[j], key)
    ensures Lookup(Collect(definitions), key) == None
    decreases |definitions|
  {
    if definitions != [] {
      var init := definitions[..|definitions| - 1];
      assert definitions == init + [definitions[|definitions| - 1]];
      LookupAfter(init, definitions[|definitions| - 1], key);
      MissingKey(init, key);
    }
  }

  /** On the lines of a file: the text of a key is that of its last definition, ignoring case; a
      key no line defines is missing; comments and invalid lines define nothing. */
  lemma LastDefinitionWins(lines: seq<string>, i: nat, key: string)
    requires i < |lines| && DefinesKey(Definition(lines[i]), key)
    requires forall j :: i < j < |lines| ==> !DefinesKey(Definition(lines[j]), key)
    ensures Lookup(ResourcesOf(lines), key) == Some(Definition(lines[i]).value.text)
  {
    ResourcesOfDefinitions(lines);
    LastEntryWins(Definitions(lines), i, key);
  }

  lemma UndefinedKeyMissing(lines: seq<string>, key: string)
    requires forall j :: 0 <= j < |lines| ==> !DefinesKey(Definition(lines[j]), key)
    ensures Lookup(ResourcesOf(lines), key) == None
  {
    ResourcesOfDefinitions(lines);
    MissingKey(Definitions(lines), key);
  }

  /** Comments and invalid lines change nothing. */
  lemma SkippedLine(lines: seq<string>, line: string)
    requires IsComment(line) || TrySplitLine(line).None?
    ensures ResourcesOf(lines + [line]) == ResourcesOf(lines)
  {
    assert (lines + [line])[..|lines|] == lines;
  }
}
