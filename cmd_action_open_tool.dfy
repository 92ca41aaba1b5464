/**
  The "open tool" action of the command line program: its action parameter
  (`-OpenTool-U-2` for the user defined tool 2, `-OpenTool-P-4` for the
  predefined tool 4), the table of predefined tools, and the run of one tool
  on the first of the selected paths.
 */
module CmdActionOpenTool {
  import opened Wrappers
  import opened Strings
  import Models
  import FilenameSorting
  import opened GotoToolStarter

  // ---------------------------------------------------------------------------
  // int.Parse

  const MinInt32: int := -0x8000_0000
  const MaxInt32: int := 0x7fff_ffff

  /** The white space int.Parse skips around the number: tab, line feed, vertical tab, form feed,
      carriage return and space. */
  predicate IsNumberWhiteSpace(c: char) {
    c == ' ' || '\t' <= c <= '\r'
  }

  predicate IsDigit(c: char) { '0' <= c <= '9' }

  predicate AllDigits(s: string) { forall i :: 0 <= i < |s| ==> IsDigit(s[i]) }

  /** The decimal value of a string of digits, the most significant digit first. */
  function DigitsValue(digits: string): nat
    requires AllDigits(digits)
    decreases |digits|
  {
    if digits == [] then 0
    else DigitsValue(digits[..|digits| - 1]) * 10 + (digits[|digits| - 1] as int - '0' as int)
  }

  /** The decimal digits of `n`, without leading zeros. */
  function DecimalDigits(n: nat): (r: string)
    ensures r != [] && AllDigits(r)
  {
    if n < 10 then [('0' as int + n) as char]
    else DecimalDigits(n / 10) + [('0' as int + n % 10) as char]
  }

  /** `n` written the way Int32.ToString writes it. */
  function FormatInt32(n: int): string {
    if n < 0 then ['-'] + DecimalDigits(-n) else DecimalDigits(n)
  }

  /** int.Parse with the integer number style: optional white space around an optionally signed
      run of decimal digits; anything else is a FormatException, a value outside the 32 bit range
      an OverflowException. */
  function ParseInt32(s: string): (r: Result<int>)
    ensures r.Success? ==> MinInt32 <= r.value <= MaxInt32
    ensures r.Failure? ==> r.error == FormatException || r.error == OverflowException
  {
    ParseTrimmed(TrimBy(s, IsNumberWhiteSpace))
  }

  /** int.Parse on the text between the white space: a sign, then at least one digit. */
  function ParseTrimmed(t: string): (r: Result<int>)
    ensures r.Success? ==> MinInt32 <= r.value <= MaxInt32
    ensures r.Failure? ==> r.error == FormatException || r.error == OverflowException
  {
    var signed := t != [] && (t[0] == '+' || t[0] == '-');
    var digits := if signed then t[1..] else t;
    if digits == [] || !AllDigits(digits) then Failure(FormatException)
    else
      var magnitude: int := DigitsValue(digits);
      var value: int := if signed && t[0] == '-' then -magnitude else magnitude;
      if value < MinInt32 || MaxInt32 < value then Failure(OverflowException) else Success(value)
  }

  /** Reading back the digits of a number gives the number. */
  lemma {:induction false} DigitsRoundTrip(n: nat)
    ensures DigitsValue(DecimalDigits(n)) == n
  {
    if n >= 10 {
      var r := DecimalDigits(n);
      assert r[..|r| - 1] == DecimalDigits(n / 10);
      DigitsRoundTrip(n / 10);
    }
  }

  /** int.Parse reads back what Int32.ToString wrote. */
  lemma ParseFormat(n: int)
    requires MinInt32 <= n <= MaxInt32
    ensures ParseInt32(FormatInt32(n)) == Success(n)
  {
    var s := FormatInt32(n);
    FormatSolid(n);
    TrimByKeeps(s, IsNumberWhiteSpace);
    if n < 0 {
      var digits := DecimalDigits(-n);
      assert s == ['-'] + digits && s[1..] == digits;
      DigitsRoundTrip(-n);
      assert ParseTrimmed(s) == Success(n);
    } else {
      DigitsRoundTrip(n);
      assert ParseTrimmed(s) == Success(n);
    }
  }

  /** A formatted number starts with a sign or a digit and ends with a digit. */
  lemma FormatSolid(n: int)
    ensures var s := FormatInt32(n);
      s != [] && !IsNumberWhiteSpace(s[0]) && !IsNumberWhiteSpace(s[|s| - 1])
  {
    if n < 0 {
      var digits := DecimalDigits(-n);
      assert FormatInt32(n) == ['-'] + digits;
      assert IsDigit(digits[|digits| - 1]);
    } else {
      var digits := DecimalDigits(n);
      assert IsDigit(digits[0]) && IsDigit(digits[|digits| - 1]);
    }
  }

  /** A string without a minus sign never parses to a negative number. */
  lemma ParseWithoutMinus(s: string)
    requires '-' !in s
    ensures ParseInt32(s).Success? ==> ParseInt32(s).value >= 0
  {
    var t := TrimBy(s, IsNumberWhiteSpace);
    if t != [] {
      var start := TrimStartBy(s, IsNumberWhiteSpace);
      assert t == start[..|t|];
      assert start == s[|s| - |start|..];
      assert t[0] == s[|s| - |start|];
    }
  }

  /** White space around the number does not change what is read. */
  lemma ParseIgnoresPadding(a: string, s: string, b: string)
    requires forall i :: 0 <= i < |a| ==> IsNumberWhiteSpace(a[i])
    requires forall i :: 0 <= i < |b| ==> IsNumberWhiteSpace(b[i])
    requires s != [] && !IsNumberWhiteSpace(s[0]) && !IsNumberWhiteSpace(s[|s| - 1])
    ensures ParseInt32(a + s + b) == ParseInt32(s)
  {
    TrimByAround(a, s, b, IsNumberWhiteSpace);
    TrimByKeeps(s, IsNumberWhiteSpace);
  }

  /** A number in range, with white space around it, is read back. */
  lemma ParsePaddedNumber(a: string, n: int, b: string)
    requires forall i :: 0 <= i < |a| ==> IsNumberWhiteSpace(a[i])
    requires forall i :: 0 <= i < |b| ==> IsNumberWhiteSpace(b[i])
    requires MinInt32 <= n <= MaxInt32
    ensures ParseInt32(a + FormatInt32(n) + b) == Success(n)
  {
    var s := FormatInt32(n);
    assert s[0] == '-' || IsDigit(s[0]);
    ParseIgnoresPadding(a, s, b);
    ParseFormat(n);
  }

  /** A plus sign in front of the digits is accepted. */
  lemma ParsePlusSign(n: nat)
    requires n <= MaxInt32
    ensures ParseInt32(['+'] + DecimalDigits(n)) == Success(n)
  {
    var s := ['+'] + DecimalDigits(n);
    TrimByKeeps(s, IsNumberWhiteSpace);
    assert s[1..] == DecimalDigits(n);
    DigitsRoundTrip(n);
  }

  /** A number outside the 32 bit range is an OverflowException, not a wrapped value. */
  lemma ParseOutOfRange(n: int)
    requires n < MinInt32 || MaxInt32 < n
    ensures ParseInt32(FormatInt32(n)) == Failure(OverflowException)
  {
    var s := FormatInt32(n);
    FormatSolid(n);
    TrimByKeeps(s, IsNumberWhiteSpace);
    if n < 0 {
      var digits := DecimalDigits(-n);
      assert s == ['-'] + digits && s[1..] == digits;
      DigitsRoundTrip(-n);
      assert ParseTrimmed(s) == Failure(OverflowException);
    } else {
      DigitsRoundTrip(n);
      assert ParseTrimmed(s) == Failure(OverflowException);
    }
  }

  /** No digits at all, only white space, is a FormatException. */
  lemma ParseBlank(s: string)
    requires forall i :: 0 <= i < |s| ==> IsNumberWhiteSpace(s[i])
    ensures ParseInt32(s) == Failure(FormatException)
  {
  }

  /** White space between digits is a FormatException. */
  lemma ParseSpaceInside(x: string, y: string)
    requires x != [] && AllDigits(x) && y != [] && AllDigits(y)
    ensures ParseInt32(x + [' '] + y) == Failure(FormatException)
  {
    var s := x + [' '] + y;
    assert s[0] == x[0] && s[|s| - 1] == y[|y| - 1];
    TrimByKeeps(s, IsNumberWhiteSpace);
    assert s[|x|] == ' ';
  }

  // ---------------------------------------------------------------------------
  // The action parameter

  /** Which tool the action parameter asks for. */
  datatype OpenToolAction = OpenToolAction(isCustomTool: bool, toolIndex: int)

  /** Splits the parameter at `-`, dropping empty parts; exactly three parts are required, the
      second one says whether the tool is user defined (`U`, in any case) and the third one is
      the tool index. */
  function ParseCommandLineAction(commandLineAction: string): (r: Result<OpenToolAction>)
    ensures |Split(commandLineAction, '-')| != 3 <==> r == Failure(ArgumentException)
    ensures r.Failure? ==> r.error in {ArgumentException, FormatException, OverflowException}
    ensures |Split(commandLineAction, '-')| == 3 ==> var parts := Split(commandLineAction, '-');
      (r.Success? <==> ParseInt32(parts[2]).Success?)
      && (r.Failure? ==> r.error == ParseInt32(parts[2]).error)
    ensures r.Success? ==> var parts := Split(commandLineAction, '-');
      |parts| == 3
      && (r.value.isCustomTool <==> EqualsIgnoreCase(parts[1], "U"))
      && ParseInt32(parts[2]) == Success(r.value.toolIndex)
      && 0 <= r.value.toolIndex <= MaxInt32
  {
    var parts := Split(commandLineAction, '-');
    if |parts| != 3 then Failure(ArgumentException)
    else
      ParseWithoutMinus(parts[2]);
      match ParseInt32(parts[2])
      case Failure(e) => Failure(e)
      case Success(toolIndex) => Success(OpenToolAction(EqualsIgnoreCase(parts[1], "U"), toolIndex))
  }

  /** The action parameter the context menu passes for a tool. */
  function ActionParameter(isCustomTool: bool, toolIndex: nat): string {
    ['-'] + "OpenTool" + ['-'] + (if isCustomTool then "U" else "P") + ['-'] + DecimalDigits(toolIndex)
  }

  /** Empty parts are dropped from the front of four parts. */
  lemma RemoveEmptyFour(a: string, b: string, c: string)
    requires a != [] && b != [] && c != []
    ensures RemoveEmpty([[], a, b, c]) == [a, b, c]
  {
    var parts: seq<string> := [[], a, b, c];
    assert RemoveEmpty([c]) == [c] by { assert [c][1..] == []; }
    assert RemoveEmpty([b, c]) == [b, c] by { assert [b, c][1..] == [c]; }
    assert RemoveEmpty([a, b, c]) == [a, b, c] by { assert [a, b, c][1..] == [b, c]; }
    assert parts[1..] == [a, b, c];
  }

  /** `-keyword-letter-rest` has the three parts keyword, letter and rest. */
  lemma SplitThreeParts(keyword: string, letter: string, rest: string)
    requires keyword != [] && '-' !in keyword && letter != [] && '-' !in letter && rest != [] && '-' !in rest
    ensures Split(['-'] + keyword + ['-'] + letter + ['-'] + rest, '-') == [keyword, letter, rest]
  {
    var tail := letter + ['-'] + rest;
    var middle := keyword + ['-'] + tail;
    assert ['-'] + keyword + ['-'] + letter + ['-'] + rest == [] + ['-'] + middle;
    SplitPartsCons([], middle, '-');
    SplitPartsCons(keyword, tail, '-');
    SplitPartsCons(letter, rest, '-');
    SplitPartsSingle(rest, '-');
    assert SplitParts([] + ['-'] + middle, '-') == [[], keyword, letter, rest];
    RemoveEmptyFour(keyword, letter, rest);
  }

  /** `-keyword-letter` has only two parts: an ArgumentException. */
  lemma ParseActionTwoParts(keyword: string, letter: string)
    requires keyword != [] && '-' !in keyword && letter != [] && '-' !in letter
    ensures ParseCommandLineAction(['-'] + keyword + ['-'] + letter) == Failure(ArgumentException)
  {
    assert ['-'] + keyword + ['-'] + letter == [] + ['-'] + (keyword + ['-'] + letter);
    SplitPartsCons([], keyword + ['-'] + letter, '-');
    SplitPartsCons(keyword, letter, '-');
    SplitPartsSingle(letter, '-');
    var parts: seq<string> := [[], keyword, letter];
    assert SplitParts(['-'] + keyword + ['-'] + letter, '-') == parts;
    assert RemoveEmpty([letter]) == [letter] by { assert [letter][1..] == []; }
    assert RemoveEmpty([keyword, letter]) == [keyword, letter] by { assert [keyword, letter][1..] == [letter]; }
    assert parts[1..] == [keyword, letter];
  }

  /** The keyword is not checked and the letter is compared ignoring case: any
      `-keyword-letter-digits` asks for the tool with that index, user defined exactly when the
      letter is `U` or `u`. */
  lemma ParseActionParts(keyword: string, letter: string, toolIndex: nat)
    requires keyword != [] && '-' !in keyword && letter != [] && '-' !in letter
    requires toolIndex <= MaxInt32
    ensures ParseCommandLineAction(['-'] + keyword + ['-'] + letter + ['-'] + DecimalDigits(toolIndex))
         == Success(OpenToolAction(EqualsIgnoreCase(letter, "U"), toolIndex))
  {
    var digits := DecimalDigits(toolIndex);
    var action := ['-'] + keyword + ['-'] + letter + ['-'] + digits;
    assert Split(action, '-') == [keyword, letter, digits] by {
      assert '-' !in digits by {
        assert forall i :: 0 <= i < |digits| ==> IsDigit(digits[i]);
      }
      SplitThreeParts(keyword, letter, digits);
    }
    assert ParseInt32(digits) == Success(toolIndex) by {
      ParseFormat(toolIndex);
    }
  }

  /** Parsing the parameter the context menu writes recovers the tool. */
  lemma ParseActionParameter(isCustomTool: bool, toolIndex: nat)
    requires toolIndex <= MaxInt32
    ensures ParseCommandLineAction(ActionParameter(isCustomTool, toolIndex)) == Success(OpenToolAction(isCustomTool, toolIndex))
  {
    var letter := if isCustomTool then "U" else "P";
    ParseActionParts("OpenTool", letter, toolIndex);
    assert ToLower("P") != ToLower("U") by { assert ToLower("P")[0] == 'p'; }
  }

  /** A lower case `u` also asks for a user defined tool. */
  lemma ParseActionLowerCase(toolIndex: nat)
    requires toolIndex <= MaxInt32
    ensures ParseCommandLineAction(['-'] + "OpenTool" + ['-'] + "u" + ['-'] + DecimalDigits(toolIndex))
         == Success(OpenToolAction(true, toolIndex))
  {
    ParseActionParts("OpenTool", "u", toolIndex);
    assert ToLower("u") == ToLower("U") by { assert ToLower("u")[0] == 'u' && ToLower("U")[0] == 'u'; }
  }

  /** A third part starting with anything but a digit, a sign or white space is a FormatException. */
  lemma ParseActionNotANumber(keyword: string, letter: string, word: string)
    requires keyword != [] && '-' !in keyword && letter != [] && '-' !in letter && word != [] && '-' !in word
    requires !IsDigit(word[0]) && !IsNumberWhiteSpace(word[0]) && word[0] != '+'
    ensures ParseCommandLineAction(['-'] + keyword + ['-'] + letter + ['-'] + word) == Failure(FormatException)
  {
    SplitThreeParts(keyword, letter, word);
    var t := TrimBy(word, IsNumberWhiteSpace);
    assert TrimStartBy(word, IsNumberWhiteSpace) == word;
    assert t != [] && t[0] == word[0];
  }

  // ---------------------------------------------------------------------------
  // The predefined tools

  /** C#'s `toolIndex % 2`: the remainder truncates toward zero, so it takes the sign of the
      dividend and is -1 for a negative odd number. */
  function RemainderOfTwo(a: int): (r: int)
    ensures -1 <= r <= 1
    ensures r == 0 <==> a % 2 == 0
    ensures r != 0 ==> (r > 0 <==> a > 0)
  {
    if a >= 0 then a % 2 else -((-a) % 2)
  }

  /** Odd entries of the table are the elevated variants: with the truncating remainder, exactly
      the positive odd indices run elevated. */
  function RunAsAdmin(toolIndex: int): (r: bool)
    ensures r <==> toolIndex > 0 && toolIndex % 2 == 1
  {
    RemainderOfTwo(toolIndex) > 0
  }

  /** The command line of a predefined tool, written from its line of the table; none outside
      0..5. */
  function PreDefinedCommandLine(toolIndex: int, isDirectory: bool): (r: Option<string>)
    ensures r.Some? <==> 0 <= toolIndex < 6
  {
    if 0 <= toolIndex < 6 then
      var line := PreDefinedLine(toolIndex, isDirectory);
      Some(line.executable + [' '] + line.before + Marker(line.placeholder) + line.after)
    else None
  }

  /** Each tool comes twice, normal and elevated, with the same command line. */
  lemma PreDefinedPairs(k: int, isDirectory: bool)
    requires 0 <= k < 3
    ensures PreDefinedCommandLine(2 * k, isDirectory) == PreDefinedCommandLine(2 * k + 1, isDirectory)
    ensures !RunAsAdmin(2 * k) && RunAsAdmin(2 * k + 1)
  {
  }

  /** Only the Explorer entries look at whether the path is a directory. */
  lemma PreDefinedDirectoryMatters(toolIndex: int)
    ensures PreDefinedCommandLine(toolIndex, true) != PreDefinedCommandLine(toolIndex, false)
        <==> toolIndex == 4 || toolIndex == 5
  {
    if toolIndex == 4 || toolIndex == 5 {
      assert PreDefinedCommandLine(toolIndex, true).value[14] != PreDefinedCommandLine(toolIndex, false).value[14];
    }
  }

  /** A pseudo custom tool carrying a predefined tool's command line and elevation; null for an
      index outside the table. */
  method BuildPreDefinedTool(toolIndex: int, isDirectory: bool) returns (result: Models.CustomGotoToolModel?)
    ensures result == null <==> PreDefinedCommandLine(toolIndex, isDirectory).None?
    ensures result != null ==>
      && fresh(result)
      && result.CommandLine == PreDefinedCommandLine(toolIndex, isDirectory).value
      && result.AsAdmin == RunAsAdmin(toolIndex)
      && result.MenuTitle == []
  {
    var runAsAdmin := RemainderOfTwo(toolIndex) > 0;
    var commandLine := PreDefinedCommandLine(toolIndex, isDirectory);
    if commandLine.None? {
      return null;
    }
    result := new Models.CustomGotoToolModel();
    result.CommandLine := commandLine.value;
    result.AsAdmin := runAsAdmin;
  }

  // ---------------------------------------------------------------------------
  // What the predefined tools start

  /** A template `executable before{p}after` as pieces. */
  function OneSlot(executable: string, before: string, p: Placeholder, after: string): seq<Piece> {
    [Text(executable + [' '] + before), Slot(p), Text(after)]
  }

  lemma TemplateOneSlot(executable: string, before: string, p: Placeholder, after: string)
    ensures Template(OneSlot(executable, before, p, after)) == executable + [' '] + before + Marker(p) + after
  {
    var v := PlaceholderValues([], [], []);
    var p2: seq<Piece> := [Text(after)] + [];
    var p1 := [Slot(p)] + p2;
    assert OneSlot(executable, before, p, after) == [Text(executable + [' '] + before)] + p1;
    RenderText(after, [], {}, v);
    assert RenderWith(p1, {}, v) == Marker(p) + RenderWith(p2, {}, v) by {
      assert p1[1..] == p2;
    }
    RenderText(executable + [' '] + before, p1, {}, v);
  }

  lemma SubstitutedOneSlot(executable: string, before: string, p: Placeholder, after: string, v: PlaceholderValues)
    requires before != []
    ensures Substituted(OneSlot(executable, before, p, after), v) == executable + Tail(before + ValueOf(v, p) + after)
  {
    var value := ValueOf(v, p);
    var p2: seq<Piece> := [Text(after)] + [];
    var p1 := [Slot(p)] + p2;
    assert OneSlot(executable, before, p, after) == [Text(executable + [' '] + before)] + p1;
    assert RenderWith(p2, AllPlaceholders, v) == after by {
      RenderText(after, [], AllPlaceholders, v);
    }
    assert RenderWith(p1, AllPlaceholders, v) == value + after by {
      RenderSlot(p, p2, AllPlaceholders, v);
    }
    RenderText(executable + [' '] + before, p1, AllPlaceholders, v);
    assert Tail(before + value + after) == [' '] + (before + value + after);
  }

  /** The template `executable before{p}after` starts `executable` with the value in its place. */
  lemma PrepareOneSlot(toolModel: Models.CustomGotoToolModel, filename: string, directoryExists: string -> bool,
                       executable: string, before: string, p: Placeholder, after: string)
    requires executable != [] && forall j :: 0 <= j < |executable| ==> !IsBoundary(executable[j])
    requires '{' !in executable && '{' !in before && '{' !in after
    requires before != [] && !IsWhiteSpace(before[0]) && after != [] && !IsWhiteSpace(after[|after| - 1])
    requires toolModel.CommandLine == Template(OneSlot(executable, before, p, after))
    requires var v := ValuesFor(filename, directoryExists); '{' !in v.fullPath && '{' !in v.directoryOnly && '{' !in v.fileOnly
    ensures var r := Prepare(toolModel, filename, directoryExists);
      r.fileName == executable && r.arguments == before + ValueOf(ValuesFor(filename, directoryExists), p) + after
  {
    var v := ValuesFor(filename, directoryExists);
    var pieces := OneSlot(executable, before, p, after);
    OneSlotBraceFree(executable, before, p, after, v);
    var arguments := before + ValueOf(v, p) + after;
    SolidAround(before, ValueOf(v, p), after);
    PrepareSubstitutes(toolModel, filename, directoryExists, pieces);
    SubstitutedOneSlot(executable, before, p, after, v);
    SplitBareTail(executable, arguments);
  }

  lemma OneSlotBraceFree(executable: string, before: string, p: Placeholder, after: string, v: PlaceholderValues)
    requires '{' !in executable && '{' !in before && '{' !in after
    requires '{' !in v.fullPath && '{' !in v.directoryOnly && '{' !in v.fileOnly
    ensures BraceFree(OneSlot(executable, before, p, after), v)
  {
    assert '{' !in executable + [' '] + before;
  }

  lemma SolidAround(before: string, value: string, after: string)
    requires before != [] && !IsWhiteSpace(before[0]) && after != [] && !IsWhiteSpace(after[|after| - 1])
    ensures SolidArguments(before + value + after)
  {
    var arguments := before + value + after;
    assert arguments[0] == before[0] && arguments[|arguments| - 1] == after[|after| - 1];
  }

  /** A predefined tool's command line: `executable before{placeholder}after`. */
  datatype ToolLine = ToolLine(executable: string, before: string, placeholder: Placeholder, after: string)

  /** The table of predefined tools, one line per index pair: the console and PowerShell change
      to the directory, the Explorer opens the directory or selects the file. */
  function PreDefinedLine(toolIndex: int, isDirectory: bool): ToolLine
    requires 0 <= toolIndex < 6
  {
    if toolIndex < 2 then ToolLine("cmd.exe", "/k \"cd /d ", UpperD, "\"")
    else if toolIndex < 4 then ToolLine("powershell.exe", "-noexit -command Set-Location -LiteralPath '", UpperD, "'")
    else if isDirectory then ToolLine("explorer.exe", "/root,\"", UpperP, "\"")
    else ToolLine("explorer.exe", "/select,\"", UpperP, "\"")
  }

  /** The line PrepareOneSlot can read: a plain executable and literal text without braces that
      starts and ends without white space. */
  predicate PlainLine(line: ToolLine) {
    && line.executable != [] && (forall j :: 0 <= j < |line.executable| ==> !IsBoundary(line.executable[j]))
    && '{' !in line.executable && '{' !in line.before && '{' !in line.after
    && line.before != [] && !IsWhiteSpace(line.before[0])
    && line.after != [] && !IsWhiteSpace(line.after[|line.after| - 1])
  }

  lemma PreDefinedLinesPlain(toolIndex: int, isDirectory: bool)
    requires 0 <= toolIndex < 6
    ensures PlainLine(PreDefinedLine(toolIndex, isDirectory))
  {
    var line := PreDefinedLine(toolIndex, isDirectory);
    PlainExecutable(line.executable);
    if toolIndex == 2 || toolIndex == 3 {
      PlainPowerShellText(line.before);
    } else {
      PlainText(line.before);
    }
    PlainText(line.after);
  }

  lemma PlainExecutable(executable: string)
    requires executable == "cmd.exe" || executable == "powershell.exe" || executable == "explorer.exe"
    ensures executable != [] && '{' !in executable
    ensures forall j :: 0 <= j < |executable| ==> !IsBoundary(executable[j])
  {
  }

  lemma PlainText(text: string)
    requires text == "/k \"cd /d " || text == "\"" || text == "'" || text == "/root,\"" || text == "/select,\""
    ensures text != [] && '{' !in text && !IsWhiteSpace(text[0])
    ensures |text| == 1 ==> !IsWhiteSpace(text[|text| - 1])
  {
  }

  lemma PlainPowerShellText(text: string)
    requires text == "-noexit -command Set-Location -LiteralPath '"
    ensures text != [] && '{' !in text && !IsWhiteSpace(text[0]) && !IsWhiteSpace(text[|text| - 1])
  {
  }

  lemma PreDefinedTemplates(toolIndex: int, isDirectory: bool)
    requires 0 <= toolIndex < 6
    ensures var line := PreDefinedLine(toolIndex, isDirectory);
      PreDefinedCommandLine(toolIndex, isDirectory) == Some(Template(OneSlot(line.executable, line.before, line.placeholder, line.after)))
  {
    var line := PreDefinedLine(toolIndex, isDirectory);
    TemplateOneSlot(line.executable, line.before, line.placeholder, line.after);
  }

  /** What a predefined tool starts: its executable, with the placeholder of its line replaced
      by the value for the selected path; odd entries elevated. */
  lemma PreparePreDefinedTool(toolModel: Models.CustomGotoToolModel, toolIndex: int, isDirectory: bool,
                              filename: string, directoryExists: string -> bool)
    requires PreDefinedCommandLine(toolIndex, isDirectory).Some?
    requires toolModel.CommandLine == PreDefinedCommandLine(toolIndex, isDirectory).value
    requires toolModel.AsAdmin == RunAsAdmin(toolIndex)
    requires var v := ValuesFor(filename, directoryExists); '{' !in v.fullPath && '{' !in v.directoryOnly && '{' !in v.fileOnly
    ensures var r := Prepare(toolModel, filename, directoryExists);
      var line := PreDefinedLine(toolIndex, isDirectory);
      && r.fileName == line.executable
      && r.arguments == line.before + ValueOf(ValuesFor(filename, directoryExists), line.placeholder) + line.after
      && (r.verb == "runas" <==> toolIndex % 2 == 1)
  {
    var line := PreDefinedLine(toolIndex, isDirectory);
    PreDefinedLinesPlain(toolIndex, isDirectory);
    PreDefinedTemplates(toolIndex, isDirectory);
    PrepareOneSlot(toolModel, filename, directoryExists, line.executable, line.before, line.placeholder, line.after);
  }

  // ---------------------------------------------------------------------------
  // The action

  /** How a run of the action ended: nothing selected, an exception, or a process started. */
  datatype Launch = NothingToOpen | Failed(error: Exception) | Started(startInfo: ProcessStartInfo)

  class CmdActionOpenTool {
    const isCustomTool: bool
    const toolIndex: int

    constructor (action: OpenToolAction)
      ensures isCustomTool == action.isCustomTool && toolIndex == action.toolIndex
    {
      isCustomTool := action.isCustomTool;
      toolIndex := action.toolIndex;
    }

    /** The action for a command line parameter; the parser's exception when it is malformed. */
    static method Create(commandLineAction: string) returns (r: Result<CmdActionOpenTool>)
      ensures r.Failure? <==> ParseCommandLineAction(commandLineAction).Failure?
      ensures r.Failure? ==> r.error == ParseCommandLineAction(commandLineAction).error
      ensures r.Success? ==>
        && fresh(r.value)
        && r.value.isCustomTool == ParseCommandLineAction(commandLineAction).value.isCustomTool
        && r.value.toolIndex == ParseCommandLineAction(commandLineAction).value.toolIndex
    {
      var parsed := ParseCommandLineAction(commandLineAction);
      if parsed.Failure? {
        return Failure(parsed.error);
      }
      var action := new CmdActionOpenTool(parsed.value);
      return Success(action);
    }

    /** Sorts the selection, then runs the tool on its first path. With no path, or an empty
        first path, nothing is started. A user defined tool is looked up in the settings
        (an index outside the list throws); a predefined one is built for the path, and an index
        outside the table leaves no tool, which fails when the start is prepared. The returned
        tool model is the one the start information was prepared from. */
    method Execute(filenames: array<string>, directoryExists: string -> bool, customGotoTools: Models.CustomGotoToolModelList)
      returns (outcome: Launch, toolModel: Models.CustomGotoToolModel?)
      modifies filenames
      ensures filenames[..] == FilenameSorting.Arranged(old(filenames[..]), directoryExists)
      ensures outcome == NothingToOpen <==> filenames.Length == 0 || filenames[0] == []
      ensures outcome != NothingToOpen && isCustomTool ==>
        if 0 <= toolIndex < |customGotoTools.items|
        then toolModel == customGotoTools.items[toolIndex]
        else outcome == Failed(ArgumentOutOfRangeException) && toolModel == null
      ensures outcome != NothingToOpen && !isCustomTool ==>
        var commandLine := PreDefinedCommandLine(toolIndex, directoryExists(filenames[0]));
        if commandLine.Some?
        then toolModel != null && fresh(toolModel)
          && toolModel.CommandLine == commandLine.value && toolModel.AsAdmin == RunAsAdmin(toolIndex)
        else outcome == Failed(NullReferenceException) && toolModel == null
      ensures outcome.Started? <==> toolModel != null
      ensures toolModel != null ==> filenames.Length > 0 && outcome == Started(Prepare(toolModel, filenames[0], directoryExists))
    {
      var sorter := new FilenameSorting.FilenameSorter(directoryExists);
      sorter.Sort(filenames);
      toolModel := null;
      if filenames.Length == 0 || filenames[0] == [] {
        return NothingToOpen, null;
      }
      var filename := filenames[0];

      var isDirectory := directoryExists(filename);
      if isCustomTool {
        if !(0 <= toolIndex < |customGotoTools.items|) {
          return Failed(ArgumentOutOfRangeException), null;
        }
        toolModel := customGotoTools.items[toolIndex];
      } else {
        toolModel := BuildPreDefinedTool(toolIndex, isDirectory);
        if toolModel == null {
          return Failed(NullReferenceException), null;
        }
      }
      outcome := Started(Prepare(toolModel, filename, directoryExists));
    }
  }
}
