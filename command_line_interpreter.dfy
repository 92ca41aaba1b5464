/**
  The command line of the helper process, as the shell extension writes it:
  an optional own path, an optional action starting with `-`, a base directory
  and the selected items, each path in double quotes.

  SplitCommandLine is the quote-aware tokenizer (a character loop with one
  quote flag and one token buffer); ParseCommandLine drops the own path,
  peels off the action and joins the base directory with every item.
 */
module CommandLineInterpreter {
  import opened Wrappers
  import opened Strings
  import SystemPath

  const Quote: char := '"'
  const Separator: char := ' '

  /** CommandLineArgs: the action (absent when no token starts with `-`) and the rebuilt paths. */
  datatype CommandLineArgs = CommandLineArgs(action: Option<string>, filenames: seq<string>)

  // ---------------------------------------------------------------------------
  // Tokenizer

  /** The tokenizer's state: inside a quote or not, the pending token, the tokens emitted so far. */
  datatype Scanner = Scanner(insideQuote: bool, current: string, tokens: seq<string>)

  const Start := Scanner(false, [], [])

  /** One character of the tokenizer loop. */
  function Step(st: Scanner, c: char): Scanner {
    if c == Quote then
      st.(insideQuote := !st.insideQuote)
    else if c == Separator then
      if st.insideQuote then st.(current := st.current + [c])
      else Scanner(false, [], if |st.current| > 0 then st.tokens + [st.current] else st.tokens)
    else
      st.(current := st.current + [c])
  }

  /** The tokenizer run over `s` from state `st`. */
  function Scan(st: Scanner, s: string): Scanner
    decreases |s|
  {
    if s == [] then st else Scan(Step(st, s[0]), s[1..])
  }

  /** The trimmed command line with one separator appended, so that the last token is flushed. */
  function Terminated(commandLine: string): string {
    var line := Trim(commandLine);
    if line == [] then line else line + [Separator]
  }

  /** The tokens of a command line: none for a blank line, and none of them empty or holding a
      quote, since quotes only toggle the state and an empty buffer is never flushed. */
  function Tokenize(commandLine: string): (r: seq<string>)
    ensures Trim(commandLine) == [] ==> r == []
    ensures forall k :: 0 <= k < |r| ==> CleanToken(r[k])
  {
    ScanStaysClean(Start, Terminated(commandLine));
    Scan(Start, Terminated(commandLine)).tokens
  }

  /** A token as the tokenizer emits it: never empty, never holding a quote. */
  predicate CleanToken(t: string) {
    t != [] && Quote !in t
  }

  method SplitCommandLine(commandLine: string) returns (result: seq<string>)
    ensures result == Tokenize(commandLine)
    ensures Trim(commandLine) == [] ==> result == []
    ensures forall k :: 0 <= k < |result| ==> CleanToken(result[k])
  {
    var line := Trim(commandLine);
    if line != [] {
      line := line + [Separator];
    }
    result := [];
    var currentParameter: string := [];
    var insideQuote := false;
    for index := 0 to |line|
      invariant Scan(Scanner(insideQuote, currentParameter, result), line[index..]) == Scan(Start, line)
    {
      var currentChar := line[index];
      assert line[index..][1..] == line[index + 1..];
      if currentChar == Quote {
        insideQuote := !insideQuote;
      } else if currentChar == Separator {
        if insideQuote {
          currentParameter := currentParameter + [currentChar];
        } else {
          if |currentParameter| > 0 {
            result := result + [currentParameter];
          }
          currentParameter := [];
        }
      } else {
        currentParameter := currentParameter + [currentChar];
      }
    }
  }

  /** Quotes only toggle the state and an empty buffer is never flushed. */
  lemma {:induction false} ScanStaysClean(st: Scanner, s: string)
    requires Quote !in st.current
    requires forall k :: 0 <= k < |st.tokens| ==> CleanToken(st.tokens[k])
    ensures Quote !in Scan(st, s).current
    ensures forall k :: 0 <= k < |Scan(st, s).tokens| ==> CleanToken(Scan(st, s).tokens[k])
    decreases |s|
  {
    if s != [] {
      ScanStaysClean(Step(st, s[0]), s[1..]);
    }
  }

  lemma {:induction false} ScanAppend(st: Scanner, a: string, b: string)
    ensures Scan(st, a + b) == Scan(Scan(st, a), b)
    decreases |a|
  {
    if a == [] {
      assert a + b == b;
    } else {
      assert (a + b)[0] == a[0] && (a + b)[1..] == a[1..] + b;
      ScanAppend(Step(st, a[0]), a[1..], b);
    }
  }

  lemma ScanOne(st: Scanner, c: char)
    ensures Scan(st, [c]) == Step(st, c)
  {
    assert [c][1..] == [];
  }

  /** `cur` glued in front of the first part. */
  function PrependTo(cur: string, parts: seq<string>): seq<string>
    requires |parts| >= 1
  {
    [cur + parts[0]] + parts[1..]
  }

  lemma PrependEmpty(parts: seq<string>)
    requires |parts| >= 1
    ensures PrependTo([], parts) == parts
  {
    assert [] + parts[0] == parts[0];
  }

  lemma RemoveEmptySingle(t: string)
    ensures RemoveEmpty([t]) == if t == [] then [] else [t]
  {
    assert [t][1..] == [];
  }

  /** A space outside quotes flushes the pending token unless it is empty. */
  lemma StepFlush(cur: string, acc: seq<string>)
    ensures Step(Scanner(false, cur, acc), Separator) == Scanner(false, [], acc + RemoveEmpty([cur]))
  {
    RemoveEmptySingle(cur);
    if cur == [] {
      assert acc + [] == acc;
    }
  }

  /** A character other than a quote or a space extends the pending token. */
  lemma ScanOrdinary(cur: string, acc: seq<string>, w: string)
    requires w != [] && w[0] != Separator && w[0] != Quote
    ensures Scan(Scanner(false, cur, acc), w + [Separator]) == Scan(Scanner(false, cur + [w[0]], acc), w[1..] + [Separator])
  {
    var s := w + [Separator];
    assert s[0] == w[0] && s[1..] == w[1..] + [Separator];
  }

  /** A space outside quotes flushes the pending token when it is not empty. */
  lemma ScanSeparator(cur: string, acc: seq<string>, w: string)
    requires w != [] && w[0] == Separator
    ensures Scan(Scanner(false, cur, acc), w + [Separator]) == Scan(Scanner(false, [], acc + RemoveEmpty([cur])), w[1..] + [Separator])
  {
    var s := w + [Separator];
    assert s[0] == w[0] && s[1..] == w[1..] + [Separator];
    StepFlush(cur, acc);
  }

  lemma PrependOrdinary(cur: string, w: string)
    requires w != [] && w[0] != Separator
    ensures PrependTo(cur, SplitParts(w, Separator)) == PrependTo(cur + [w[0]], SplitParts(w[1..], Separator))
  {
    var rest := SplitParts(w[1..], Separator);
    assert SplitParts(w, Separator) == [[w[0]] + rest[0]] + rest[1..];
    assert cur + ([w[0]] + rest[0]) == (cur + [w[0]]) + rest[0];
  }

  lemma PrependSeparator(cur: string, w: string)
    requires w != [] && w[0] == Separator
    ensures RemoveEmpty(PrependTo(cur, SplitParts(w, Separator)))
         == RemoveEmpty([cur]) + RemoveEmpty(PrependTo([], SplitParts(w[1..], Separator)))
  {
    var rest := SplitParts(w[1..], Separator);
    PrependEmpty(rest);
    assert SplitParts(w, Separator) == [[]] + rest;
    assert cur + [] == cur;
    assert PrependTo(cur, SplitParts(w, Separator)) == [cur] + rest;
    RemoveEmptyAppend([cur], rest);
  }

  lemma QuoteFreeTail(w: string)
    requires w != [] && Quote !in w
    ensures w[0] != Quote && Quote !in w[1..]
  {
    assert w[0] in w;
    forall k | 0 <= k < |w[1..]| ensures w[1..][k] != Quote { assert w[1..][k] == w[k + 1]; }
  }

  lemma ScanUnquotedEnd(cur: string, acc: seq<string>)
    ensures Scan(Scanner(false, cur, acc), [] + [Separator])
         == Scanner(false, [], acc + RemoveEmpty(PrependTo(cur, SplitParts([], Separator))))
  {
    RemoveEmptySingle(cur);
    assert [] + [Separator] == [Separator];
    ScanOne(Scanner(false, cur, acc), Separator);
    StepFlush(cur, acc);
    assert cur + [] == cur;
    assert PrependTo(cur, SplitParts([], Separator)) == [cur];
  }

  lemma SeparatorParts(cur: string, acc: seq<string>, w: string)
    requires w != [] && w[0] == Separator
    ensures acc + RemoveEmpty([cur]) + RemoveEmpty(PrependTo([], SplitParts(w[1..], Separator)))
         == acc + RemoveEmpty(PrependTo(cur, SplitParts(w, Separator)))
  {
    PrependSeparator(cur, w);
    var a, b := RemoveEmpty([cur]), RemoveEmpty(PrependTo([], SplitParts(w[1..], Separator)));
    assert acc + a + b == acc + (a + b);
  }

  /** Outside quotes the tokenizer splits on spaces and drops the empty parts. */
  lemma {:induction false} ScanUnquoted(cur: string, acc: seq<string>, w: string)
    requires Quote !in w
    ensures Scan(Scanner(false, cur, acc), w + [Separator])
         == Scanner(false, [], acc + RemoveEmpty(PrependTo(cur, SplitParts(w, Separator))))
    decreases |w|
  {
    if w == [] {
      ScanUnquotedEnd(cur, acc);
    } else {
      QuoteFreeTail(w);
      if w[0] == Separator {
        ScanSeparator(cur, acc, w);
        ScanUnquoted([], acc + RemoveEmpty([cur]), w[1..]);
        SeparatorParts(cur, acc, w);
      } else {
        ScanOrdinary(cur, acc, w);
        ScanUnquoted(cur + [w[0]], acc, w[1..]);
        PrependOrdinary(cur, w);
      }
    }
  }

  lemma TrimKeepsOut(s: string, c: char)
    requires c !in s
    ensures c !in Trim(s)
  {
    TrimIsSlice(s);
    var i, j :| 0 <= i <= j <= |s| && Trim(s) == s[i..j];
    forall k | 0 <= k < j - i ensures s[i..j][k] != c {
      assert s[i..j][k] == s[i + k];
    }
  }

  /** Without quotes, the tokens are the trimmed line split on runs of spaces. */
  lemma TokenizeWithoutQuotes(commandLine: string)
    requires Quote !in commandLine
    ensures Tokenize(commandLine) == Split(Trim(commandLine), Separator)
  {
    var line := Trim(commandLine);
    TrimKeepsOut(commandLine, Quote);
    if line == [] {
      assert SplitParts(line, Separator) == [[]];
      RemoveEmptySingle([]);
    } else {
      ScanUnquoted([], [], line);
      PrependEmpty(SplitParts(line, Separator));
      assert [] + RemoveEmpty(SplitParts(line, Separator)) == RemoveEmpty(SplitParts(line, Separator));
    }
  }

  // ---------------------------------------------------------------------------
  // The command line as the shell extension composes it

  /** A word of a command line: bare (written as it is) or in double quotes. */
  datatype Word = Bare(text: string) | InQuotes(text: string)

  /** A bare word holds neither whitespace nor quotes; a quoted word holds no quote. */
  predicate WellFormedWord(w: Word) {
    Quote !in w.text && (w.Bare? ==> forall i :: 0 <= i < |w.text| ==> !IsWhiteSpace(w.text[i]))
  }

  function Written(w: Word): string {
    if w.Bare? then w.text else [Quote] + w.text + [Quote]
  }

  /** The words with one space between each two of them. */
  function Join(words: seq<Word>): string
    decreases |words|
  {
    if words == [] then []
    else if |words| == 1 then Written(words[0])
    else Written(words[0]) + [Separator] + Join(words[1..])
  }

  function Texts(words: seq<Word>): seq<string> {
    seq(|words|, k requires 0 <= k < |words| => words[k].text)
  }

  lemma {:induction false} ScanInsideQuote(cur: string, acc: seq<string>, w: string)
    requires Quote !in w
    ensures Scan(Scanner(true, cur, acc), w) == Scanner(true, cur + w, acc)
    decreases |w|
  {
    if w == [] {
      assert cur + w == cur;
    } else {
      assert w[0] in w;
      assert Quote !in w[1..] by {
        forall k | 0 <= k < |w[1..]| ensures w[1..][k] != Quote { assert w[1..][k] == w[k + 1]; }
      }
      ScanInsideQuote(cur + [w[0]], acc, w[1..]);
      assert cur + [w[0]] + w[1..] == cur + w;
    }
  }

  lemma ScanQuoted(acc: seq<string>, t: string)
    requires Quote !in t
    ensures Scan(Scanner(false, [], acc), [Quote] + t + [Quote, Separator]) == Scanner(false, [], acc + RemoveEmpty([t]))
  {
    var st := Scanner(false, [], acc);
    assert [Quote] + t + [Quote, Separator] == ([Quote] + t) + [Quote, Separator];
    ScanAppend(st, [Quote] + t, [Quote, Separator]);
    ScanAppend(st, [Quote], t);
    ScanOne(st, Quote);
    ScanInsideQuote([], acc, t);
    assert [] + t == t;
    var inner := Scanner(true, t, acc);
    assert Scan(st, [Quote] + t) == inner;
    var tail: string := [Quote, Separator];
    assert tail[0] == Quote && tail[1..] == [Separator];
    assert Scan(inner, tail) == Scan(Scanner(false, t, acc), [Separator]);
    ScanOne(Scanner(false, t, acc), Separator);
    StepFlush(t, acc);
  }

  lemma ScanWord(acc: seq<string>, w: Word)
    requires WellFormedWord(w)
    ensures Scan(Scanner(false, [], acc), Written(w) + [Separator]) == Scanner(false, [], acc + RemoveEmpty([w.text]))
  {
    RemoveEmptySingle(w.text);
    if w.Bare? {
      assert Separator !in w.text by {
        forall k | 0 <= k < |w.text| ensures w.text[k] != Separator { assert !IsWhiteSpace(w.text[k]); }
      }
      ScanUnquoted([], acc, w.text);
      SplitPartsSingle(w.text, Separator);
      PrependEmpty([w.text]);
    } else {
      assert Written(w) + [Separator] == [Quote] + w.text + [Quote, Separator];
      ScanQuoted(acc, w.text);
    }
  }

  lemma JoinCons(words: seq<Word>)
    requires |words| >= 2
    ensures Join(words) + [Separator] == (Written(words[0]) + [Separator]) + (Join(words[1..]) + [Separator])
  {
    assert Join(words) == Written(words[0]) + [Separator] + Join(words[1..]);
  }

  lemma TextsCons(words: seq<Word>)
    requires |words| >= 1
    ensures Texts(words) == [words[0].text] + Texts(words[1..])
  {
  }

  lemma ScanFirstWord(st: Scanner, words: seq<Word>)
    requires |words| >= 2
    ensures Scan(st, Join(words) + [Separator]) == Scan(Scan(st, Written(words[0]) + [Separator]), Join(words[1..]) + [Separator])
  {
    JoinCons(words);
    ScanAppend(st, Written(words[0]) + [Separator], Join(words[1..]) + [Separator]);
  }

  lemma ScanWordsCons(acc: seq<string>, words: seq<Word>)
    requires |words| >= 2 && WellFormedWord(words[0])
    requires Scan(Scanner(false, [], acc + RemoveEmpty([words[0].text])), Join(words[1..]) + [Separator])
          == Scanner(false, [], acc + RemoveEmpty([words[0].text]) + RemoveEmpty(Texts(words[1..])))
    ensures Scan(Scanner(false, [], acc), Join(words) + [Separator])
         == Scanner(false, [], acc + RemoveEmpty([words[0].text]) + RemoveEmpty(Texts(words[1..])))
  {
    ScanWord(acc, words[0]);
    ScanFirstWord(Scanner(false, [], acc), words);
  }

  lemma RemoveEmptyCons(acc: seq<string>, words: seq<Word>)
    requires |words| >= 2
    ensures acc + RemoveEmpty([words[0].text]) + RemoveEmpty(Texts(words[1..])) == acc + RemoveEmpty(Texts(words))
  {
    TextsCons(words);
    RemoveEmptyAppend([words[0].text], Texts(words[1..]));
    var a, b := RemoveEmpty([words[0].text]), RemoveEmpty(Texts(words[1..]));
    assert acc + a + b == acc + (a + b);
  }

  lemma {:induction false} ScanWords(acc: seq<string>, words: seq<Word>)
    requires words != [] && forall k :: 0 <= k < |words| ==> WellFormedWord(words[k])
    ensures Scan(Scanner(false, [], acc), Join(words) + [Separator]) == Scanner(false, [], acc + RemoveEmpty(Texts(words)))
    decreases |words|
  {
    if |words| == 1 {
      ScanWord(acc, words[0]);
      assert Texts(words) == [words[0].text];
    } else {
      ScanWords(acc + RemoveEmpty([words[0].text]), words[1..]);
      ScanWordsCons(acc, words);
      RemoveEmptyCons(acc, words);
    }
  }

  /** A character that cannot be trimmed away. */
  predicate Solid(c: char) {
    !IsWhiteSpace(c)
  }

  /** A word that leaves a solid character at either end of the command line. */
  predicate Visible(w: Word) {
    WellFormedWord(w) && (w.text != [] || w.InQuotes?)
  }

  lemma VisibleEnds(w: Word)
    requires Visible(w)
    ensures Written(w) != [] && Solid(Written(w)[0]) && Solid(Written(w)[|Written(w)| - 1])
  {
  }

  lemma {:induction false} JoinLast(words: seq<Word>)
    requires words != [] && Written(words[|words| - 1]) != []
    ensures Join(words) != [] && Join(words)[|Join(words)| - 1] == Written(words[|words| - 1])[|Written(words[|words| - 1])| - 1]
    decreases |words|
  {
    if |words| > 1 {
      JoinLast(words[1..]);
      assert words[1..][|words[1..]| - 1] == words[|words| - 1];
    }
  }

  lemma JoinFirst(words: seq<Word>)
    requires words != [] && Written(words[0]) != []
    ensures Join(words) != [] && Join(words)[0] == Written(words[0])[0]
  {
  }

  lemma JoinSolid(words: seq<Word>)
    requires words != [] && Visible(words[0]) && Visible(words[|words| - 1])
    ensures Join(words) != [] && Solid(Join(words)[0]) && Solid(Join(words)[|Join(words)| - 1])
  {
    VisibleEnds(words[0]);
    VisibleEnds(words[|words| - 1]);
    JoinFirst(words);
    JoinLast(words);
  }

  /** A command line that starts and ends with a solid character is only terminated. */
  lemma TerminatedSolid(s: string)
    requires s != [] && Solid(s[0]) && Solid(s[|s| - 1])
    ensures Terminated(s) == s + [Separator]
  {
    TrimByKeeps(s, IsWhiteSpace);
  }

  /** The tokenizer recovers the texts of the words, dropping the ones that are empty. */
  lemma TokenizeJoin(words: seq<Word>)
    requires words != [] && forall k :: 0 <= k < |words| ==> WellFormedWord(words[k])
    requires Visible(words[0]) && Visible(words[|words| - 1])
    ensures Tokenize(Join(words)) == RemoveEmpty(Texts(words))
  {
    var line := Join(words);
    JoinSolid(words);
    calc {
      Tokenize(line);
      Scan(Start, Terminated(line)).tokens;
      { TerminatedSolid(line); }
      Scan(Scanner(false, [], []), line + [Separator]).tokens;
      { ScanWords([], words); }
      [] + RemoveEmpty(Texts(words));
      RemoveEmpty(Texts(words));
    }
  }

  // ---------------------------------------------------------------------------
  // Decoder

  /** The own executable's path is dropped when it is the first token, ignoring case: the result
      is the token list or its tail, and it is the tail exactly when the first token matches. */
  function RemoveOwnExeName(parts: seq<string>, ownExeName: string): (r: seq<string>)
    ensures |parts| - 1 <= |r| <= |parts| && r == parts[|parts| - |r|..]
    ensures |r| < |parts| <==> |parts| >= 1 && EqualsIgnoreCase(parts[0], ownExeName)
  {
    if |parts| >= 1 && EqualsIgnoreCase(parts[0], ownExeName) then parts[1..] else parts
  }

  /** The token at `index` exists and its first character is `-`. */
  function ArgumentIsAction(parts: seq<string>, index: nat): (r: bool)
    ensures r <==> index < |parts| && |parts[index]| >= 1 && parts[index][0] == '-'
  {
    |parts| > index && StartsWith(parts[index], "-")
  }

  /** The decoding of a token list, as ParseCommandLine performs it: the own path is dropped only as
      the first token and compared ignoring case; an action exists exactly when the next token
      starts with `-`; fewer than two remaining tokens give no paths, otherwise one path per item,
      each item combined with the first remaining token. */
  function Decode(parts: seq<string>, ownExeName: string): (r: CommandLineArgs)
    ensures var rest := if |parts| >= 1 && EqualsIgnoreCase(parts[0], ownExeName) then parts[1..] else parts;
      && (r.action.Some? <==> |rest| >= 1 && |rest[0]| >= 1 && rest[0][0] == '-')
      && (r.action.Some? ==> r.action.value == rest[0])
      && var items := if r.action.Some? then rest[1..] else rest;
      && (|items| < 2 ==> r.filenames == [])
      && (|items| >= 2 ==>
            |r.filenames| == |items| - 1
            && forall k :: 0 <= k < |r.filenames| ==> r.filenames[k] == SystemPath.Combine(items[0], items[k + 1]))
  {
    var rest := RemoveOwnExeName(parts, ownExeName);
    var items := if ArgumentIsAction(rest, 0) then rest[1..] else rest;
    CommandLineArgs(
      if ArgumentIsAction(rest, 0) then Some(rest[0]) else None,
      if |items| >= 2 then seq(|items| - 1, k requires 0 <= k < |items| - 1 => SystemPath.Combine(items[0], items[k + 1]))
      else [])
  }

  method ParseCommandLine(commandLine: string, ownExeName: string) returns (result: CommandLineArgs)
    ensures result == Decode(Tokenize(commandLine), ownExeName)
  {
    var parts := SplitCommandLine(commandLine);
    result := ParseParts(parts, ownExeName);
  }

  /** The part of ParseCommandLine that follows the tokenizer. */
  method ParseParts(tokens: seq<string>, ownExeName: string) returns (result: CommandLineArgs)
    ensures result == Decode(tokens, ownExeName)
  {
    var parts := RemoveOwnExeName(tokens, ownExeName);
    var action: Option<string> := None;
    if ArgumentIsAction(parts, 0) {
      action := Some(parts[0]);
      parts := parts[1..];
    }
    var filenames: seq<string> := [];
    if |parts| >= 2 {
      var directory := parts[0];
      for index := 1 to |parts|
        invariant |filenames| == index - 1
        invariant forall k :: 0 <= k < index - 1 ==> filenames[k] == SystemPath.Combine(directory, parts[k + 1])
      {
        var filePath := SystemPath.Combine(directory, parts[index]);
        filenames := filenames + [filePath];
      }
    }
    result := CommandLineArgs(action, filenames);
  }

  /** The words of the command line the shell extension writes: the own path in quotes (optional),
      the bare action, then the base directory and every item in quotes. */
  function Invocation(ownExeName: string, withOwnPath: bool, action: string, directory: string, items: seq<string>): seq<Word> {
    (if withOwnPath then [InQuotes(ownExeName)] else []) + [Bare(action), InQuotes(directory)]
      + seq(|items|, k requires 0 <= k < |items| => InQuotes(items[k]))
  }

  function InvocationTexts(ownExeName: string, withOwnPath: bool, action: string, directory: string, items: seq<string>): seq<string> {
    (if withOwnPath then [ownExeName] else []) + [action, directory] + items
  }

  lemma InvocationWords(ownExeName: string, withOwnPath: bool, action: string, directory: string, items: seq<string>)
    ensures var words := Invocation(ownExeName, withOwnPath, action, directory, items);
      Texts(words) == InvocationTexts(ownExeName, withOwnPath, action, directory, items)
      && words != [] && words[|words| - 1].InQuotes?
      && words[0] == if withOwnPath then InQuotes(ownExeName) else Bare(action)
  {
  }

  /** Every word of an invocation comes back as one token. */
  lemma TokenizeInvocation(ownExeName: string, withOwnPath: bool, action: string, directory: string, items: seq<string>)
    requires !withOwnPath || CleanToken(ownExeName)
    requires |action| >= 1 && WellFormedWord(Bare(action))
    requires CleanToken(directory) && forall k :: 0 <= k < |items| ==> CleanToken(items[k])
    ensures Tokenize(Join(Invocation(ownExeName, withOwnPath, action, directory, items)))
         == InvocationTexts(ownExeName, withOwnPath, action, directory, items)
  {
    var words := Invocation(ownExeName, withOwnPath, action, directory, items);
    var texts := InvocationTexts(ownExeName, withOwnPath, action, directory, items);
    InvocationWords(ownExeName, withOwnPath, action, directory, items);
    InvocationWellFormed(ownExeName, withOwnPath, action, directory, items);
    TokenizeJoin(words);
    InvocationTextsClean(ownExeName, withOwnPath, action, directory, items);
    RemoveEmptyKeeps(texts);
  }

  lemma InvocationWellFormed(ownExeName: string, withOwnPath: bool, action: string, directory: string, items: seq<string>)
    requires !withOwnPath || CleanToken(ownExeName)
    requires WellFormedWord(Bare(action))
    requires CleanToken(directory) && forall k :: 0 <= k < |items| ==> CleanToken(items[k])
    ensures var words := Invocation(ownExeName, withOwnPath, action, directory, items);
      forall k :: 0 <= k < |words| ==> WellFormedWord(words[k])
  {
    var head := (if withOwnPath then [InQuotes(ownExeName)] else []) + [Bare(action), InQuotes(directory)];
    var tail := seq(|items|, k requires 0 <= k < |items| => InQuotes(items[k]));
    var words := head + tail;
    forall k | 0 <= k < |words| ensures WellFormedWord(words[k]) {
      if k >= |head| {
        assert words[k] == tail[k - |head|];
      }
    }
  }

  lemma InvocationTextsClean(ownExeName: string, withOwnPath: bool, action: string, directory: string, items: seq<string>)
    requires !withOwnPath || CleanToken(ownExeName)
    requires |action| >= 1
    requires CleanToken(directory) && forall k :: 0 <= k < |items| ==> CleanToken(items[k])
    ensures var texts := InvocationTexts(ownExeName, withOwnPath, action, directory, items);
      forall k :: 0 <= k < |texts| ==> texts[k] != []
  {
    var head := (if withOwnPath then [ownExeName] else []) + [action, directory];
    var texts := head + items;
    forall k | 0 <= k < |texts| ensures texts[k] != [] {
      if k >= |head| {
        assert texts[k] == items[k - |head|];
      }
    }
  }

  /** The decoder takes the action from the token after the own path and joins the directory with every item. */
  lemma DecodeInvocation(ownExeName: string, withOwnPath: bool, action: string, directory: string, items: seq<string>)
    requires !withOwnPath ==> !EqualsIgnoreCase(action, ownExeName)
    requires |action| >= 1 && action[0] == '-'
    ensures Decode(InvocationTexts(ownExeName, withOwnPath, action, directory, items), ownExeName)
         == CommandLineArgs(Some(action), seq(|items|, k requires 0 <= k < |items| => SystemPath.Combine(directory, items[k])))
  {
    var texts := InvocationTexts(ownExeName, withOwnPath, action, directory, items);
    var rest := [action, directory] + items;
    if withOwnPath {
      assert texts == [ownExeName] + rest;
      assert texts[1..] == rest;
      assert EqualsIgnoreCase(texts[0], ownExeName);
    } else {
      assert texts == rest;
    }
    DecodeRest(texts, ownExeName, action, directory, items);
  }

  /** Once the own path is dropped, an action token is followed by the base directory and the items. */
  lemma DecodeRest(parts: seq<string>, ownExeName: string, action: string, directory: string, items: seq<string>)
    requires RemoveOwnExeName(parts, ownExeName) == [action, directory] + items
    requires |action| >= 1 && action[0] == '-'
    ensures Decode(parts, ownExeName)
         == CommandLineArgs(Some(action), seq(|items|, k requires 0 <= k < |items| => SystemPath.Combine(directory, items[k])))
  {
    var rest := [action, directory] + items;
    assert ArgumentIsAction(rest, 0);
    var tail := rest[1..];
    assert tail == [directory] + items;
    assert forall k :: 0 <= k < |items| ==> tail[k + 1] == items[k];
  }

  /** The whole protocol: the command line the shell extension writes decodes to the action and to the
      items joined with the directory. */
  lemma ParseInvocation(ownExeName: string, withOwnPath: bool, action: string, directory: string, items: seq<string>)
    requires !withOwnPath ==> !EqualsIgnoreCase(action, ownExeName)
    requires !withOwnPath || CleanToken(ownExeName)
    requires |action| >= 1 && action[0] == '-' && WellFormedWord(Bare(action))
    requires CleanToken(directory) && forall k :: 0 <= k < |items| ==> CleanToken(items[k])
    ensures Decode(Tokenize(Join(Invocation(ownExeName, withOwnPath, action, directory, items))), ownExeName)
         == CommandLineArgs(Some(action), seq(|items|, k requires 0 <= k < |items| => SystemPath.Combine(directory, items[k])))
  {
    TokenizeInvocation(ownExeName, withOwnPath, action, directory, items);
    DecodeInvocation(ownExeName, withOwnPath, action, directory, items);
  }

  lemma {:induction false} RemoveEmptyKeeps(parts: seq<string>)
    requires forall k :: 0 <= k < |parts| ==> parts[k] != []
    ensures RemoveEmpty(parts) == parts
    decreases |parts|
  {
    if parts != [] {
      RemoveEmptyKeeps(parts[1..]);
    }
  }

  /** The decoding test: the action, the base directory and two items. */
  lemma DecodeExample(ownExeName: string)
    requires !EqualsIgnoreCase("-option1", ownExeName)
    ensures Decode(["-option1", "D:\\", "file1.txt", "file with space1.txt"], ownExeName)
         == CommandLineArgs(Some("-option1"), ["D:\\file1.txt", "D:\\file with space1.txt"])
  {
    var items := ["file1.txt", "file with space1.txt"];
    assert ["-option1", "D:\\", "file1.txt", "file with space1.txt"] == InvocationTexts(ownExeName, false, "-option1", "D:\\", items);
    DecodeInvocation(ownExeName, false, "-option1", "D:\\", items);
    CombineExamples();
    assert seq(|items|, k requires 0 <= k < |items| => SystemPath.Combine("D:\\", items[k])) == ["D:\\file1.txt", "D:\\file with space1.txt"];
  }

  lemma CombineExamples()
    ensures SystemPath.Combine("D:\\", "file1.txt") == "D:\\file1.txt"
    ensures SystemPath.Combine("D:\\", "file with space1.txt") == "D:\\file with space1.txt"
  {
    CombineFirstExample();
    CombineSecondExample();
  }

  lemma CombineFirstExample()
    ensures SystemPath.Combine("D:\\", "file1.txt") == "D:\\file1.txt"
  {
    CombineInDirectory("D:\\", "file1.txt");
    assert "D:\\" + "file1.txt" == "D:\\file1.txt";
  }

  lemma CombineSecondExample()
    ensures SystemPath.Combine("D:\\", "file with space1.txt") == "D:\\file with space1.txt"
  {
    CombineInDirectory("D:\\", "file with space1.txt");
    assert "D:\\" + "file with space1.txt" == "D:\\file with space1.txt";
  }

  /** An item that is not rooted is appended to a directory that ends with a separator. */
  lemma CombineInDirectory(directory: string, item: string)
    requires directory != [] && SystemPath.IsNameSeparator(directory[|directory| - 1])
    requires item != [] && !SystemPath.IsPathRooted(item)
    ensures SystemPath.Combine(directory, item) == directory + item
  {
  }

  /** An action alone: no items. */
  lemma DecodeActionOnly(ownExeName: string)
    requires !EqualsIgnoreCase("-option1", ownExeName)
    ensures Decode(["-option1"], ownExeName) == CommandLineArgs(Some("-option1"), [])
  {
  }
}
