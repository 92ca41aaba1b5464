/**
  The goto-tool command builder. A tool's command line template holds the
  placeholders `{P}`/`{p}` (full path), `{D}`/`{d}` (directory with a trailing
  backslash) and `{F}`/`{f}` (file name); Prepare substitutes them for the
  selected path and splits the result into the executable and its arguments.
  The executable may be quoted with `"` or `'`.
 */
module GotoToolStarter {
  import opened Wrappers
  import opened Strings
  import SystemPath
  import PathUtils
  import Models

  predicate IsQuote(c: char) { c == '"' || c == '\'' }

  /** A character that may end the executable: white space or a quote. */
  predicate IsBoundary(c: char) { IsWhiteSpace(c) || IsQuote(c) }

  // ---------------------------------------------------------------------------
  // Where the executable ends

  /** The first position at or after `from` holding white space or a quote, or |s|. */
  function FirstBoundary(s: string, from: nat): (r: nat)
    requires from <= |s|
    ensures from <= r <= |s|
    ensures forall j :: from <= j < r ==> !IsBoundary(s[j])
    ensures r < |s| ==> IsBoundary(s[r])
    decreases |s| - from
  {
    if from == |s| then |s| else if IsBoundary(s[from]) then from else FirstBoundary(s, from + 1)
  }

  /** The first position at or after `from` holding `c`, or |s|. */
  function FirstOccurrence(s: string, from: nat, c: char): (r: nat)
    requires from <= |s|
    ensures from <= r <= |s|
    ensures forall j :: from <= j < r ==> s[j] != c
    ensures r < |s| ==> s[r] == c
    decreases |s| - from
  {
    if from == |s| then |s| else if s[from] == c then from else FirstOccurrence(s, from + 1, c)
  }

  /** `s[..r]` is a bare executable: it holds no white space and no quote, and white space or
      the end of the line follows it. */
  predicate BareFront(s: string, r: nat) {
    r <= |s| && (forall j :: 0 <= j < r ==> !IsBoundary(s[j])) && (r == |s| || IsWhiteSpace(s[r]))
  }

  /** `s[..r]` is an executable whose first white space or quote is the quote at `p`: it ends
      with the next quote of the same kind, or with the line when there is none. */
  predicate QuotedFront(s: string, p: nat, r: nat) {
    p < r <= |s| && IsQuote(s[p]) && (forall j :: 0 <= j < p ==> !IsBoundary(s[j]))
    && (|| (p < r - 1 && s[r - 1] == s[p] && forall j :: p < j < r - 1 ==> s[j] != s[p])
        || (r == |s| && forall j :: p < j < |s| ==> s[j] != s[p]))
  }

  /** The length of the executable at the front of a trimmed command line: everything up to the
      first white space; or, when a quote comes first, everything up to and including the next
      quote of the same kind (the whole line when that quote is missing). */
  function ExecutableLength(s: string): (r: nat)
    ensures r <= |s|
    ensures s == [] ==> r == 0
    ensures BareFront(s, r) || exists p :: QuotedFront(s, p, r)
  {
    var p := FirstBoundary(s, 0);
    if p == |s| then |s|
    else if IsQuote(s[p]) then
      var k := FirstOccurrence(s, p + 1, s[p]);
      var r := if k == |s| then |s| else k + 1;
      assert QuotedFront(s, p, r);
      r
    else p
  }

  /** The scan of the command line, one character at a time, with the quote that is open. */
  method DetermineExecutableLength(commandLine: string) returns (result: int)
    ensures result == ExecutableLength(commandLine)
  {
    if |commandLine| == 0 {
      return 0;
    }
    result := 0;
    var quote: Option<char> := None;
    ghost var start := 0;
    for index := 0 to |commandLine|
      invariant result == index
      invariant quote.None? ==> forall j :: 0 <= j < index ==> !IsBoundary(commandLine[j])
      invariant quote.Some? ==>
        0 <= start < index && commandLine[start] == quote.value && IsQuote(quote.value)
        && (forall j :: 0 <= j < start ==> !IsBoundary(commandLine[j]))
        && (forall j :: start < j < index ==> commandLine[j] != quote.value)
    {
      var commandLineChar := commandLine[index];
      var isWhiteSpace := IsWhiteSpace(commandLineChar);
      var isQuote := IsQuote(commandLineChar);
      if isQuote {
        if quote.Some? {
          if quote.value == commandLineChar {
            result := result + 1;
            return result;
          } else {
            result := result + 1;
          }
        } else {
          result := result + 1;
          quote := Some(commandLineChar);
          start := index;
        }
      } else if isWhiteSpace {
        if quote.Some? {
          result := result + 1;
        } else {
          return result;
        }
      } else {
        result := result + 1;
      }
    }
  }

  /** An unquoted executable ends at the first white space. */
  lemma BareExecutableLength(executable: string, rest: string)
    requires forall j :: 0 <= j < |executable| ==> !IsBoundary(executable[j])
    requires rest == [] || IsWhiteSpace(rest[0])
    ensures ExecutableLength(executable + rest) == |executable|
  {
    var s := executable + rest;
    assert forall j :: 0 <= j < |executable| ==> s[j] == executable[j];
    assert |executable| < |s| ==> s[|executable|] == rest[0];
  }

  /** A quoted executable ends with its closing quote, whatever follows; white space and the
      other kind of quote inside it belong to it. */
  lemma QuotedExecutableLength(quote: char, name: string, rest: string)
    requires IsQuote(quote) && quote !in name
    ensures ExecutableLength([quote] + name + [quote] + rest) == |name| + 2
  {
    var s := [quote] + name + [quote] + rest;
    assert s[0] == quote;
    assert FirstBoundary(s, 0) == 0;
    forall j | 1 <= j < |name| + 1 ensures s[j] != quote {
      assert s[j] == name[j - 1];
    }
    assert s[|name| + 1] == quote;
    assert FirstOccurrence(s, 1, quote) == |name| + 1;
  }

  /** Reference values: an unquoted executable, alone or followed by a space or an argument. */
  lemma BareExecutableExamples()
    ensures ExecutableLength("explorer.exe") == 12
    ensures ExecutableLength("explorer.exe ") == 12
    ensures ExecutableLength("explorer.exe param1") == 12
  {
    BareExecutableLength("explorer.exe", "");
    assert "explorer.exe" + "" == "explorer.exe";
    BareExecutableLength("explorer.exe", " ");
    assert "explorer.exe" + " " == "explorer.exe ";
    BareExecutableLength("explorer.exe", " param1");
    assert "explorer.exe" + " param1" == "explorer.exe param1";
  }

  /** Reference values: executables in either kind of quote. */
  lemma QuotedExecutableExamples()
    ensures ExecutableLength("'explorer.exe'") == 14
    ensures ExecutableLength("\"explorer.exe\"") == 14
  {
    QuotedApostropheExecutable();
    QuotedDoubleQuoteExecutable();
  }

  lemma QuotedApostropheExecutable()
    ensures ExecutableLength("'explorer.exe'") == 14
  {
    QuotedExample('\'', "explorer.exe", "'explorer.exe'");
  }

  lemma QuotedDoubleQuoteExecutable()
    ensures ExecutableLength("\"explorer.exe\"") == 14
  {
    QuotedExample('"', "explorer.exe", "\"explorer.exe\"");
  }

  /** Reference values: white space and the other kind of quote inside a quote. */
  lemma QuotedInsideExamples()
    ensures ExecutableLength("\"ex plorer.exe\"") == 15
    ensures ExecutableLength("\"ex'plorer.exe\"") == 15
    ensures ExecutableLength("'ex\"plorer.exe'") == 15
  {
    QuotedSpaceExample();
    QuotedApostropheExample();
    QuotedDoubleQuoteExample();
  }

  lemma QuotedSpaceExample()
    ensures ExecutableLength("\"ex plorer.exe\"") == 15
  {
    QuotedExample('"', "ex plorer.exe", "\"ex plorer.exe\"");
  }

  lemma QuotedApostropheExample()
    ensures ExecutableLength("\"ex'plorer.exe\"") == 15
  {
    QuotedExample('"', "ex'plorer.exe", "\"ex'plorer.exe\"");
  }

  lemma QuotedDoubleQuoteExample()
    ensures ExecutableLength("'ex\"plorer.exe'") == 15
  {
    QuotedExample('\'', "ex\"plorer.exe", "'ex\"plorer.exe'");
  }

  /** One quoted executable written out as a literal. */
  lemma QuotedExample(quote: char, name: string, line: string)
    requires IsQuote(quote) && quote !in name
    requires line == [quote] + name + [quote]
    ensures ExecutableLength(line) == |name| + 2
  {
    QuotedExecutableLength(quote, name, "");
    assert [quote] + name + [quote] + "" == line;
  }

  // ---------------------------------------------------------------------------
  // Executable and arguments

  /** A command line split into the executable and its arguments. */
  datatype CommandParts = CommandParts(executableFile: string, arguments: string)

  /** The executable is the front of the trimmed line, without the quotes around it; the
      arguments are the rest without leading white space, quotes and all. */
  function SplitCommandLine(commandLine: string): (r: CommandParts)
    ensures r.executableFile == [] || (!IsQuote(r.executableFile[0]) && !IsQuote(r.executableFile[|r.executableFile| - 1]))
    ensures r.arguments == [] || !IsWhiteSpace(r.arguments[0])
    ensures Trim(commandLine) == [] ==> r == CommandParts([], [])
  {
    var line := Trim(commandLine);
    var executableLength := ExecutableLength(line);
    CommandParts(TrimBy(line[..executableLength], IsQuote), TrimStart(line[executableLength..]))
  }

  /** The text after the executable: nothing, or one space and the arguments. */
  function Tail(arguments: string): string {
    if arguments == [] then [] else [' '] + arguments
  }

  /** Arguments that trimming leaves alone. */
  predicate SolidArguments(arguments: string) {
    arguments == [] || (!IsWhiteSpace(arguments[0]) && !IsWhiteSpace(arguments[|arguments| - 1]))
  }

  /** Trimming the quotes off a quoted name whose own ends are not quotes. */
  lemma TrimQuotesAround(quote: char, name: string)
    requires IsQuote(quote) && name != [] && !IsQuote(name[0]) && !IsQuote(name[|name| - 1])
    ensures TrimBy([quote] + name + [quote], IsQuote) == name
  {
    var s := [quote] + name + [quote];
    assert s[1..] == name + [quote];
    assert (name + [quote])[0] == name[0];
    assert TrimStartBy(s, IsQuote) == name + [quote];
    assert (name + [quote])[..|name|] == name;
  }

  /** A quoted executable comes back without its quotes and the arguments unchanged, whatever
      white space pads the line or separates the two; none is needed after the closing quote. */
  lemma SplitQuotedCommand(lead: string, quote: char, name: string, gap: string, arguments: string, trail: string)
    requires IsNullOrWhiteSpace(lead) && IsNullOrWhiteSpace(gap) && IsNullOrWhiteSpace(trail)
    requires IsQuote(quote) && quote !in name
    requires name != [] && !IsQuote(name[0]) && !IsQuote(name[|name| - 1])
    requires SolidArguments(arguments)
    ensures SplitCommandLine(lead + [quote] + name + [quote] + gap + arguments + trail) == CommandParts(name, arguments)
  {
    var executable := [quote] + name + [quote];
    var rest := Rest(gap, arguments);
    assert lead + [quote] + name + [quote] + gap + arguments + trail == lead + executable + gap + arguments + trail;
    PaddedLine(lead, executable, gap, arguments, trail);
    QuotedExecutableLength(quote, name, rest);
    TrimQuotesAround(quote, name);
    TrimStartGap(gap, arguments);
    SplitTrimmed(lead + executable + gap + arguments + trail, executable, rest);
  }

  /** An unquoted executable is the first word and the arguments are the rest, whatever white
      space pads the line or separates the two. */
  lemma SplitBareCommand(lead: string, executable: string, gap: string, arguments: string, trail: string)
    requires IsNullOrWhiteSpace(lead) && IsNullOrWhiteSpace(gap) && IsNullOrWhiteSpace(trail)
    requires executable != [] && forall j :: 0 <= j < |executable| ==> !IsBoundary(executable[j])
    requires SolidArguments(arguments) && (arguments == [] || gap != [])
    ensures SplitCommandLine(lead + executable + gap + arguments + trail) == CommandParts(executable, arguments)
  {
    var rest := Rest(gap, arguments);
    PaddedLine(lead, executable, gap, arguments, trail);
    BareExecutableLength(executable, rest);
    TrimByKeeps(executable, IsQuote);
    TrimStartGap(gap, arguments);
    SplitTrimmed(lead + executable + gap + arguments + trail, executable, rest);
  }

  /** What follows the executable once the line is trimmed: the gap and the arguments, or nothing. */
  function Rest(gap: string, arguments: string): string {
    if arguments == [] then [] else gap + arguments
  }

  /** The split of a line that trims to `executable + rest`, the executable ending where the scan
      says it does. */
  lemma SplitTrimmed(s: string, executable: string, rest: string)
    requires Trim(s) == executable + rest && ExecutableLength(executable + rest) == |executable|
    ensures SplitCommandLine(s) == CommandParts(TrimBy(executable, IsQuote), TrimStart(rest))
  {
    var line := executable + rest;
    assert line[..|executable|] == executable && line[|executable|..] == rest;
  }

  /** Trimming a padded line leaves the executable, then the gap and the arguments if any. */
  lemma PaddedLine(lead: string, executable: string, gap: string, arguments: string, trail: string)
    requires IsNullOrWhiteSpace(lead) && IsNullOrWhiteSpace(gap) && IsNullOrWhiteSpace(trail)
    requires executable != [] && !IsWhiteSpace(executable[0]) && !IsWhiteSpace(executable[|executable| - 1])
    requires SolidArguments(arguments)
    ensures Trim(lead + executable + gap + arguments + trail) == executable + Rest(gap, arguments)
  {
    var s := lead + executable + gap + arguments + trail;
    if arguments == [] {
      assert s == lead + executable + (gap + trail);
      TrimByAround(lead, executable, gap + trail, IsWhiteSpace);
      assert executable + [] == executable;
    } else {
      var middle := executable + (gap + arguments);
      assert s == lead + middle + trail;
      assert middle[0] == executable[0] && middle[|middle| - 1] == arguments[|arguments| - 1];
      TrimByAround(lead, middle, trail, IsWhiteSpace);
    }
  }

  /** White space before solid arguments is dropped. */
  lemma TrimStartGap(gap: string, arguments: string)
    requires IsNullOrWhiteSpace(gap) && SolidArguments(arguments)
    ensures TrimStart(Rest(gap, arguments)) == arguments
  {
    if arguments != [] {
      TrimStartAround(gap, arguments, IsWhiteSpace);
    }
  }

  lemma TailLayout(executable: string, arguments: string)
    ensures [] + executable + (if arguments == [] then [] else [' ']) + arguments + [] == executable + Tail(arguments)
  {
  }

  /** The split of `executable args`, the shape the tool templates are written in. */
  lemma SplitBareTail(executable: string, arguments: string)
    requires executable != [] && forall j :: 0 <= j < |executable| ==> !IsBoundary(executable[j])
    requires SolidArguments(arguments)
    ensures SplitCommandLine(executable + Tail(arguments)) == CommandParts(executable, arguments)
  {
    var gap := if arguments == [] then [] else [' '];
    TailLayout(executable, arguments);
    SplitBareCommand([], executable, gap, arguments, []);
  }

  // ---------------------------------------------------------------------------
  // Placeholders

  datatype Placeholder = UpperP | LowerP | UpperD | LowerD | UpperF | LowerF

  function Letter(p: Placeholder): char {
    match p
      case UpperP => 'P' case LowerP => 'p'
      case UpperD => 'D' case LowerD => 'd'
      case UpperF => 'F' case LowerF => 'f'
  }

  /** How a placeholder is written in a template. */
  function Marker(p: Placeholder): string {
    ['{', Letter(p), '}']
  }

  /** The values substituted for the selected path. */
  datatype PlaceholderValues = PlaceholderValues(fullPath: string, directoryOnly: string, fileOnly: string)

  function ValueOf(values: PlaceholderValues, p: Placeholder): string {
    match p
      case UpperP => values.fullPath case LowerP => values.fullPath
      case UpperD => values.directoryOnly case LowerD => values.directoryOnly
      case UpperF => values.fileOnly case LowerF => values.fileOnly
  }

  /** The six replacements, in the order the tool builder applies them. A template that
      contains no placeholder passes through unchanged. */
  function ExpandPlaceholders(template: string, values: PlaceholderValues): (r: string)
    ensures (forall p: Placeholder :: !Contains(template, Marker(p))) ==> r == template
  {
    var s1 := Replace(template, Marker(UpperP), values.fullPath);
    var s2 := Replace(s1, Marker(LowerP), values.fullPath);
    var s3 := Replace(s2, Marker(UpperD), values.directoryOnly);
    var s4 := Replace(s3, Marker(LowerD), values.directoryOnly);
    var s5 := Replace(s4, Marker(UpperF), values.fileOnly);
    assert (forall p: Placeholder :: !Contains(template, Marker(p))) ==>
      && !Contains(template, Marker(UpperP)) && !Contains(template, Marker(LowerP))
      && !Contains(template, Marker(UpperD)) && !Contains(template, Marker(LowerD))
      && !Contains(template, Marker(UpperF)) && !Contains(template, Marker(LowerF));
    Replace(s5, Marker(LowerF), values.fileOnly)
  }

  /** A template read as literal text and placeholders. */
  datatype Piece = Text(text: string) | Slot(placeholder: Placeholder)

  /** The pieces written out: the placeholders in `done` by their values, the others as markers. */
  function RenderWith(pieces: seq<Piece>, done: set<Placeholder>, values: PlaceholderValues): string
    decreases |pieces|
  {
    if pieces == [] then []
    else
      var head := match pieces[0]
        case Text(t) => t
        case Slot(p) => if p in done then ValueOf(values, p) else Marker(p);
      head + RenderWith(pieces[1..], done, values)
  }

  const AllPlaceholders: set<Placeholder> := {UpperP, LowerP, UpperD, LowerD, UpperF, LowerF}

  /** The template the pieces stand for. */
  function Template(pieces: seq<Piece>): string {
    RenderWith(pieces, {}, PlaceholderValues([], [], []))
  }

  /** Every placeholder replaced by its value in a single pass. */
  function Substituted(pieces: seq<Piece>, values: PlaceholderValues): string {
    RenderWith(pieces, AllPlaceholders, values)
  }

  /** Neither the literal text nor the values contain `{`. */
  predicate BraceFree(pieces: seq<Piece>, values: PlaceholderValues) {
    (forall k :: 0 <= k < |pieces| && pieces[k].Text? ==> '{' !in pieces[k].text)
    && '{' !in values.fullPath && '{' !in values.directoryOnly && '{' !in values.fileOnly
  }

  lemma {:induction false} RenderWithoutDone(pieces: seq<Piece>, a: PlaceholderValues, b: PlaceholderValues)
    ensures RenderWith(pieces, {}, a) == RenderWith(pieces, {}, b)
    decreases |pieces|
  {
    if pieces != [] {
      RenderWithoutDone(pieces[1..], a, b);
    }
  }

  /** Replacing one placeholder passes over a marker of another one. */
  lemma ReplaceOtherMarker(q: Placeholder, p: Placeholder, c: string, value: string)
    requires q != p
    ensures Replace(Marker(q) + c, Marker(p), value) == Marker(q) + Replace(c, Marker(p), value)
  {
    var s, pattern := Marker(q) + c, Marker(p);
    LettersDiffer(q, p);
    assert s[1] == Letter(q);
    ReplaceMissAtFront(s, pattern, value);
    assert s[1..] == [Letter(q), '}'] + c;
    ReplaceSkip([Letter(q), '}'], c, pattern, value);
    var rest := Replace(c, pattern, value);
    assert ['{'] + ([Letter(q), '}'] + rest) == Marker(q) + rest;
  }

  /** Distinct placeholders are written with distinct letters, none of them a brace. */
  lemma LettersDiffer(q: Placeholder, p: Placeholder)
    requires q != p
    ensures Letter(q) != Letter(p) && Letter(q) != '{'
  {
  }

  /** One replacement step turns the markers of `p`, and nothing else, into its value. */
  lemma {:induction false} ReplaceStep(pieces: seq<Piece>, done: set<Placeholder>, p: Placeholder, values: PlaceholderValues)
    requires p !in done && BraceFree(pieces, values)
    ensures Replace(RenderWith(pieces, done, values), Marker(p), ValueOf(values, p))
         == RenderWith(pieces, done + {p}, values)
    decreases |pieces|
  {
    var pattern, value := Marker(p), ValueOf(values, p);
    if pieces == [] {
    } else {
      assert BraceFree(pieces[1..], values) by {
        forall k | 0 <= k < |pieces[1..]| && pieces[1..][k].Text? ensures '{' !in pieces[1..][k].text {
          assert pieces[1..][k] == pieces[k + 1];
        }
      }
      ReplaceStep(pieces[1..], done, p, values);
      var rest := RenderWith(pieces[1..], done, values);
      match pieces[0] {
        case Text(t) =>
          ReplaceSkip(t, rest, pattern, value);
        case Slot(q) =>
          if q in done {
            ReplaceSkip(ValueOf(values, q), rest, pattern, value);
          } else if q == p {
            ReplaceHit(rest, pattern, value);
          } else {
            ReplaceOtherMarker(q, p, rest, value);
          }
      }
    }
  }

  /** When neither the template text nor the values contain `{`, the six replacements in sequence
      are a single-pass substitution of every placeholder. */
  lemma ExpandSubstitutes(pieces: seq<Piece>, values: PlaceholderValues)
    requires BraceFree(pieces, values)
    ensures ExpandPlaceholders(Template(pieces), values) == Substituted(pieces, values)
  {
    RenderWithoutDone(pieces, PlaceholderValues([], [], []), values);
    var d1: set<Placeholder> := {UpperP};
    var d2 := d1 + {LowerP};
    var d3 := d2 + {UpperD};
    var d4 := d3 + {LowerD};
    var d5 := d4 + {UpperF};
    ReplaceStep(pieces, {}, UpperP, values);
    assert {} + {UpperP} == d1;
    ReplaceStep(pieces, d1, LowerP, values);
    ReplaceStep(pieces, d2, UpperD, values);
    ReplaceStep(pieces, d3, LowerD, values);
    ReplaceStep(pieces, d4, UpperF, values);
    ReplaceStep(pieces, d5, LowerF, values);
    assert d5 + {LowerF} == AllPlaceholders;
  }

  /** The replacements run in sequence: a path that itself contains a later marker has that marker
      replaced as well. Here the full path is the text `{f}`. */
  lemma ExpandReplacesInsideValues(values: PlaceholderValues)
    requires values.fullPath == Marker(LowerF) && '{' !in values.fileOnly
    ensures ExpandPlaceholders(Marker(UpperP), values) == values.fileOnly
  {
    ReplaceHit([], Marker(UpperP), values.fullPath);
    var s1 := Marker(LowerF);
    assert Replace(Marker(UpperP), Marker(UpperP), values.fullPath) == s1;
    ReplaceOtherMarker(LowerF, LowerP, [], values.fullPath);
    ReplaceOtherMarker(LowerF, UpperD, [], values.directoryOnly);
    ReplaceOtherMarker(LowerF, LowerD, [], values.directoryOnly);
    ReplaceOtherMarker(LowerF, UpperF, [], values.fileOnly);
    assert Marker(LowerF) + [] == Marker(LowerF);
    ReplaceHit([], Marker(LowerF), values.fileOnly);
    assert Marker(LowerF) + [] == Marker(LowerF);
    assert values.fileOnly + [] == values.fileOnly;
  }

  /** Text without `{` holds no marker. */
  lemma {:induction false} BraceFreeHasNoMarker(s: string, p: Placeholder)
    requires '{' !in s
    ensures !Contains(s, Marker(p))
    decreases |s|
  {
    if s != [] {
      assert s[1..] == s[1..];
      assert '{' !in s[1..] by {
        forall j | 0 <= j < |s[1..]| ensures s[1..][j] != '{' {
          assert s[1..][j] == s[j + 1];
        }
      }
      BraceFreeHasNoMarker(s[1..], p);
      if |s| >= 3 {
        assert s[..3][0] == s[0] != '{';
      }
    }
  }

  // ---------------------------------------------------------------------------
  // Preparing the process

  /** The placeholder values for a trimmed path: a directory gets its trailing backslash, and its
      file name is empty; a file keeps its path, and its directory gets a trailing backslash. */
  function PlaceholderValuesFor(filename: string, isDirectory: bool): (v: PlaceholderValues)
    ensures v.directoryOnly != [] && v.directoryOnly[|v.directoryOnly| - 1] == '\\'
    ensures isDirectory ==> v.fullPath == v.directoryOnly == PathUtils.IncludeTrailingBackslash(filename) && v.fileOnly == []
    ensures !isDirectory ==> v.fullPath == filename
    ensures forall i :: 0 <= i < |v.fileOnly| ==> !SystemPath.IsNameSeparator(v.fileOnly[i])
  {
    var fullPath := if isDirectory then PathUtils.IncludeTrailingBackslash(filename) else filename;
    var directoryOnly :=
      if isDirectory then fullPath
      else PathUtils.IncludeTrailingBackslash(SystemPath.GetDirectoryName(fullPath));
    var fileOnly := SystemPath.GetFileName(fullPath);
    assert isDirectory ==> SystemPath.LastIndexWhere(fullPath, SystemPath.IsNameSeparator) == |fullPath| - 1;
    PlaceholderValues(fullPath, directoryOnly, fileOnly)
  }

  /** The directory and the file name are cut from the path, so they hold no `{` the path lacks. */
  lemma ValuesBraceFree(filename: string, isDirectory: bool)
    requires '{' !in PlaceholderValuesFor(filename, isDirectory).fullPath
    ensures var v := PlaceholderValuesFor(filename, isDirectory); '{' !in v.directoryOnly && '{' !in v.fileOnly
  {
    var v := PlaceholderValuesFor(filename, isDirectory);
    if !isDirectory {
      var directory := SystemPath.GetDirectoryName(v.fullPath);
      assert '{' !in directory by { assert directory == v.fullPath[..|directory|]; }
      var name := SystemPath.GetFileName(v.fullPath);
      assert v.fileOnly == name;
      assert '{' !in name by { assert name == v.fullPath[|v.fullPath| - |name|..]; }
    }
  }

  /** A file `dir\name` splits into `dir\` and `name`. */
  lemma FileValues(dir: string, name: string)
    requires dir == [] || dir[|dir| - 1] != '\\'
    requires forall i :: 0 <= i < |name| ==> !SystemPath.IsNameSeparator(name[i])
    ensures PlaceholderValuesFor(dir + ['\\'] + name, false) == PlaceholderValues(dir + ['\\'] + name, dir + ['\\'], name)
  {
    var path := dir + ['\\'] + name;
    DirectoryOfFile(dir, name);
    NameOfFile(dir, name);
    assert PathUtils.IncludeTrailingBackslash(dir) == dir + ['\\'];
  }

  lemma DirectoryOfFile(dir: string, name: string)
    requires forall i :: 0 <= i < |name| ==> !SystemPath.IsNameSeparator(name[i])
    ensures SystemPath.GetDirectoryName(dir + ['\\'] + name) == dir
  {
    var path := dir + ['\\'] + name;
    assert path[|dir|] == '\\';
    NameAfterSeparator(dir, name);
    SystemPath.LastIndexAt(path, |dir|, SystemPath.IsDirectorySeparator);
    assert path[..|dir|] == dir;
  }

  lemma NameOfFile(dir: string, name: string)
    requires forall i :: 0 <= i < |name| ==> !SystemPath.IsNameSeparator(name[i])
    ensures SystemPath.GetFileName(dir + ['\\'] + name) == name
  {
    var path := dir + ['\\'] + name;
    assert path[|dir|] == '\\';
    NameAfterSeparator(dir, name);
    SystemPath.LastIndexAt(path, |dir|, SystemPath.IsNameSeparator);
    assert path[|dir| + 1..] == name;
  }

  lemma NameAfterSeparator(dir: string, name: string)
    requires forall i :: 0 <= i < |name| ==> !SystemPath.IsNameSeparator(name[i])
    ensures var path := dir + ['\\'] + name;
      forall i :: |dir| < i < |path| ==> !SystemPath.IsNameSeparator(path[i]) && !SystemPath.IsDirectorySeparator(path[i])
  {
    var path := dir + ['\\'] + name;
    forall i | |dir| < i < |path|
      ensures !SystemPath.IsNameSeparator(path[i]) && !SystemPath.IsDirectorySeparator(path[i])
    {
      assert path[i] == name[i - |dir| - 1];
    }
  }

  datatype ProcessWindowStyle = Normal | Hidden | Minimized | Maximized

  /** The start information handed to the shell. */
  datatype ProcessStartInfo = ProcessStartInfo(
    fileName: string,
    arguments: string,
    useShellExecute: bool,
    verb: string,
    windowStyle: ProcessWindowStyle)

  /** The values Prepare substitutes: the path is trimmed first, and the (environment provided)
      directory test looks at the trimmed path. */
  function ValuesFor(filename: string, directoryExists: string -> bool): (v: PlaceholderValues)
    ensures var path := Trim(filename);
      && v.directoryOnly != [] && v.directoryOnly[|v.directoryOnly| - 1] == '\\'
      && (directoryExists(path) ==> v.fullPath == v.directoryOnly == PathUtils.IncludeTrailingBackslash(path) && v.fileOnly == [])
      && (!directoryExists(path) ==> v.fullPath == path)
      && forall i :: 0 <= i < |v.fileOnly| ==> !SystemPath.IsNameSeparator(v.fileOnly[i])
  {
    var trimmed := Trim(filename);
    PlaceholderValuesFor(trimmed, directoryExists(trimmed))
  }

  /** The start information for running a tool on the selected path: placeholders substituted,
      the result split into executable and arguments, started through the shell in a normal
      window, elevated exactly when the tool asks for it. */
  function Prepare(toolModel: Models.CustomGotoToolModel, filename: string, directoryExists: string -> bool): (r: ProcessStartInfo)
    reads toolModel
    ensures r.useShellExecute && r.windowStyle == Normal
    ensures r.verb == "runas" <==> toolModel.AsAdmin
    ensures r.verb == "open" <==> !toolModel.AsAdmin
    ensures r.arguments == [] || !IsWhiteSpace(r.arguments[0])
    ensures r.fileName == [] || (!IsQuote(r.fileName[0]) && !IsQuote(r.fileName[|r.fileName| - 1]))
  {
    StartInfo(ExpandPlaceholders(toolModel.CommandLine, ValuesFor(filename, directoryExists)), toolModel.AsAdmin)
  }

  /** The start information for a command line whose placeholders are substituted. */
  function StartInfo(commandLine: string, asAdmin: bool): (r: ProcessStartInfo)
    ensures r.useShellExecute && r.windowStyle == Normal
    ensures r.verb == "runas" <==> asAdmin
    ensures r.verb == "open" <==> !asAdmin
    ensures CommandParts(r.fileName, r.arguments) == SplitCommandLine(commandLine)
  {
    var parts := SplitCommandLine(commandLine);
    ProcessStartInfo(parts.executableFile, parts.arguments, true, if asAdmin then "runas" else "open", Normal)
  }

  /** For a template read as pieces, Prepare splits the single-pass substitution, as long as
      neither the template text nor the values contain `{`. */
  lemma PrepareSubstitutes(toolModel: Models.CustomGotoToolModel, filename: string, directoryExists: string -> bool, pieces: seq<Piece>)
    requires toolModel.CommandLine == Template(pieces)
    requires BraceFree(pieces, ValuesFor(filename, directoryExists))
    ensures var r := Prepare(toolModel, filename, directoryExists);
      CommandParts(r.fileName, r.arguments) == SplitCommandLine(Substituted(pieces, ValuesFor(filename, directoryExists)))
  {
    ExpandSubstitutes(pieces, ValuesFor(filename, directoryExists));
  }

  /** The pieces of the template `exe "{x}" "{y}"`. */
  function QuotedPair(executable: string, x: Placeholder, y: Placeholder): seq<Piece> {
    [Text(executable + [' ', '"']), Slot(x), Text(['"', ' ', '"']), Slot(y), Text(['"'])]
  }

  /** The arguments `"vx" "vy"`. */
  function QuotedValues(vx: string, vy: string): string {
    ['"'] + vx + ['"', ' ', '"'] + vy + ['"']
  }

  lemma SubstitutedQuotedPair(executable: string, x: Placeholder, y: Placeholder, v: PlaceholderValues)
    ensures Substituted(QuotedPair(executable, x, y), v) == executable + Tail(QuotedValues(ValueOf(v, x), ValueOf(v, y)))
  {
    var vx, vy := ValueOf(v, x), ValueOf(v, y);
    var p4: seq<Piece> := [Text(['"'])] + [];
    var p3 := [Slot(y)] + p4;
    var p2 := [Text(['"', ' ', '"'])] + p3;
    var p1 := [Slot(x)] + p2;
    assert QuotedPair(executable, x, y) == [Text(executable + [' ', '"'])] + p1;
    RenderText(['"'], [], AllPlaceholders, v);
    RenderSlot(y, p4, AllPlaceholders, v);
    RenderText(['"', ' ', '"'], p3, AllPlaceholders, v);
    RenderSlot(x, p2, AllPlaceholders, v);
    RenderText(executable + [' ', '"'], p1, AllPlaceholders, v);
    QuotedValuesNested(executable, vx, vy);
  }

  lemma QuotedValuesNested(executable: string, vx: string, vy: string)
    ensures executable + [' ', '"'] + (vx + (['"', ' ', '"'] + (vy + (['"'] + [])))) == executable + Tail(QuotedValues(vx, vy))
  {
    assert executable + [' ', '"'] + (vx + (['"', ' ', '"'] + (vy + (['"'] + [])))) == executable + ([' '] + QuotedValues(vx, vy));
  }

  lemma RenderText(t: string, rest: seq<Piece>, done: set<Placeholder>, values: PlaceholderValues)
    ensures RenderWith([Text(t)] + rest, done, values) == t + RenderWith(rest, done, values)
  {
    assert ([Text(t)] + rest)[1..] == rest;
  }

  lemma RenderSlot(p: Placeholder, rest: seq<Piece>, done: set<Placeholder>, values: PlaceholderValues)
    requires p in done
    ensures RenderWith([Slot(p)] + rest, done, values) == ValueOf(values, p) + RenderWith(rest, done, values)
  {
    assert ([Slot(p)] + rest)[1..] == rest;
  }

  lemma QuotedValuesSolid(vx: string, vy: string)
    ensures SolidArguments(QuotedValues(vx, vy))
  {
    var a := QuotedValues(vx, vy);
    assert a[0] == '"' && a[|a| - 1] == '"';
  }

  lemma BraceFreeQuotedPair(executable: string, x: Placeholder, y: Placeholder, v: PlaceholderValues)
    requires '{' !in executable
    requires '{' !in v.fullPath && '{' !in v.directoryOnly && '{' !in v.fileOnly
    ensures BraceFree(QuotedPair(executable, x, y), v)
  {
    assert '{' !in executable + [' ', '"'];
  }

  /** The template `exe "{x}" "{y}"` starts `exe` with the two values, each in quotes. */
  lemma PrepareQuotedPair(toolModel: Models.CustomGotoToolModel, filename: string, directoryExists: string -> bool,
                          executable: string, x: Placeholder, y: Placeholder)
    requires executable != [] && '{' !in executable
    requires forall j :: 0 <= j < |executable| ==> !IsBoundary(executable[j])
    requires toolModel.CommandLine == Template(QuotedPair(executable, x, y))
    requires var v := ValuesFor(filename, directoryExists); '{' !in v.fullPath && '{' !in v.directoryOnly && '{' !in v.fileOnly
    ensures var r := Prepare(toolModel, filename, directoryExists);
      var v := ValuesFor(filename, directoryExists);
      r.fileName == executable && r.arguments == QuotedValues(ValueOf(v, x), ValueOf(v, y))
  {
    var v := ValuesFor(filename, directoryExists);
    var pieces := QuotedPair(executable, x, y);
    BraceFreeQuotedPair(executable, x, y, v);
    QuotedValuesSolid(ValueOf(v, x), ValueOf(v, y));
    PrepareSubstitutes(toolModel, filename, directoryExists, pieces);
    SubstitutedQuotedPair(executable, x, y, v);
    SplitBareTail(executable, QuotedValues(ValueOf(v, x), ValueOf(v, y)));
  }

  /** A template without placeholders is split as it stands. */
  lemma PrepareConstantTemplate(toolModel: Models.CustomGotoToolModel, filename: string, directoryExists: string -> bool)
    requires '{' !in toolModel.CommandLine
    ensures var r := Prepare(toolModel, filename, directoryExists);
      CommandParts(r.fileName, r.arguments) == SplitCommandLine(toolModel.CommandLine)
  {
    forall p: Placeholder ensures !Contains(toolModel.CommandLine, Marker(p)) {
      BraceFreeHasNoMarker(toolModel.CommandLine, p);
    }
  }

  /** A quoted executable without placeholders loses its quotes and the padding around the
      line, as in `  "to ol.exe"  `; the arguments that follow are passed unchanged. */
  lemma PrepareQuotedExecutable(toolModel: Models.CustomGotoToolModel, filename: string, directoryExists: string -> bool,
                                lead: string, quote: char, name: string, gap: string, arguments: string, trail: string)
    requires IsNullOrWhiteSpace(lead) && IsNullOrWhiteSpace(gap) && IsNullOrWhiteSpace(trail)
    requires IsQuote(quote) && quote !in name && '{' !in name && '{' !in arguments
    requires name != [] && !IsQuote(name[0]) && !IsQuote(name[|name| - 1])
    requires SolidArguments(arguments)
    requires toolModel.CommandLine == lead + [quote] + name + [quote] + gap + arguments + trail
    ensures var r := Prepare(toolModel, filename, directoryExists);
      r.fileName == name && r.arguments == arguments
  {
    QuotedCommandBraceFree(lead, quote, name, gap, arguments, trail);
    PrepareConstantTemplate(toolModel, filename, directoryExists);
    SplitQuotedCommand(lead, quote, name, gap, arguments, trail);
  }

  /** The padded template `  "to ol.exe"  ` starts `to ol.exe` without arguments. */
  lemma PreparePaddedQuotedExecutable(toolModel: Models.CustomGotoToolModel, filename: string, directoryExists: string -> bool)
    requires toolModel.CommandLine == "  \"to ol.exe\"  "
    ensures var r := Prepare(toolModel, filename, directoryExists);
      r.fileName == "to ol.exe" && r.arguments == []
  {
    var pad, name := "  ", "to ol.exe";
    assert toolModel.CommandLine == pad + ['"'] + name + ['"'] + [] + [] + pad;
    PrepareQuotedExecutable(toolModel, filename, directoryExists, pad, '"', name, [], [], pad);
  }

  lemma QuotedCommandBraceFree(lead: string, quote: char, name: string, gap: string, arguments: string, trail: string)
    requires IsNullOrWhiteSpace(lead) && IsNullOrWhiteSpace(gap) && IsNullOrWhiteSpace(trail)
    requires IsQuote(quote) && '{' !in name && '{' !in arguments
    ensures '{' !in lead + [quote] + name + [quote] + gap + arguments + trail
  {
    assert '{' !in lead && '{' !in gap && '{' !in trail;
  }

  /** An empty template starts nothing: executable and arguments are empty. */
  lemma PrepareEmptyTemplate(toolModel: Models.CustomGotoToolModel, filename: string, directoryExists: string -> bool)
    requires toolModel.CommandLine == []
    ensures var r := Prepare(toolModel, filename, directoryExists);
      r.fileName == [] && r.arguments == []
  {
    PrepareConstantTemplate(toolModel, filename, directoryExists);
  }

  /** The template `{P}` alone runs the selected file itself. */
  lemma PrepareArgumentOnly(toolModel: Models.CustomGotoToolModel, filename: string, directoryExists: string -> bool)
    requires toolModel.CommandLine == Marker(UpperP)
    requires var path := ValuesFor(filename, directoryExists).fullPath;
      path != [] && '{' !in path && forall j :: 0 <= j < |path| ==> !IsBoundary(path[j])
    ensures var r := Prepare(toolModel, filename, directoryExists);
      r.fileName == ValuesFor(filename, directoryExists).fullPath && r.arguments == []
  {
    var v := ValuesFor(filename, directoryExists);
    ValuesBraceFree(Trim(filename), directoryExists(Trim(filename)));
    ArgumentOnlyPieces(v);
    PrepareSubstitutes(toolModel, filename, directoryExists, [Slot(UpperP)]);
    SplitBareTail(v.fullPath, []);
  }

  lemma ArgumentOnlyPieces(v: PlaceholderValues)
    ensures Template([Slot(UpperP)]) == Marker(UpperP)
    ensures Substituted([Slot(UpperP)], v) == v.fullPath + Tail([])
  {
  }
}
