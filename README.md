# ExplorerGenie core in Dafny

ExplorerGenie adds context menu entries to the Windows Explorer. The shell extension
starts a helper program, ExplorerGenieCmd. It passes the helper a command line that holds
an action such as `-OpenTool-U-2`, a base directory and the selected items, each path in
double quotes. This project models the parts of that helper, and of the shared library it
uses, that work on strings, lists and tool settings:

- **CommandLineInterpreter**: the quote-aware tokenizer of the command line (a character
  loop with one quote flag and one token buffer), and the decoder. The decoder drops the
  helper's own path, takes the action and joins the base directory with every item.
- **GotoToolStarter**: finds where the executable ends in a tool's command line, replaces
  the placeholders `{P}`/`{p}` (full path), `{D}`/`{d}` (directory with a trailing
  backslash) and `{F}`/`{f}` (file name), and builds the process start information.
- **FilenameSorting**: sorts the selected paths in place, directories first, each group
  ordered ignoring case.
- **PathUtils**: escapes paths for C, formats Outlook links, and runs the copy-file and
  copy-email conversions over a list in place.
- **LanguageResources**: reads a language file line by line. It skips comments, splits
  each line into key and text, turns the tags `\n` and `\r\n` into line breaks, and keeps
  the entries in a dictionary keyed ignoring case.
- **ListExtensions**: `ModifyEach`, which replaces every element of a list by its image.
- **Models**: the user defined goto tool, its list, and their deep copies and value
  equality.
- **CmdActionOpenTool**: parses the action parameter, including a model of `int.Parse`.
  It also holds the table of predefined tools (console, PowerShell and Explorer, each in a
  normal and an elevated variant) and the run of one tool on the first selected path.

Shared modules: `Wrappers` (Option, Result and the .NET exceptions the core raises),
`Strings` (the .NET string primitives the core calls: `char.IsWhiteSpace`, `Trim`,
`StartsWith` compared character by character, ordinal `Contains`/`IndexOf`, `Replace`,
`Split` with `RemoveEmptyEntries`, simple case folding) and `SystemPath` (`Path.Combine`, `GetFileName`, `GetDirectoryName`).

Where the source changes state, the model does too. The tokenizer, `DetermineExecutableLength`,
`ReadFromStream`, `ModifyEach`, the list `Equals`/`Clone` and `ParseParts` are methods with loops.
`FilenameSorter`, the tool model and its list are classes. The lists the core rewrites in place
are arrays. The loops are proved to compute a specification function, and the properties the
source promises are lemmas about those functions. The constructors, `Clone`, `Create` and
`BuildPreDefinedTool` state the new object's fields one by one instead.

Environment lookups become parameters:
- `Directory.Exists` becomes `directoryExists: string -> bool`;
- the helper's own path becomes `ownExeName`;
- the settings service becomes the `customGotoTools` list;
- the UNC expansion and `Uri.AbsoluteUri` become `expandUnc` and `convertToUri`.

## Model

| member | source | states |
|---|---|---|
| CommandLineInterpreter.SplitCommandLine | src/ExplorerGenieShared/CommandLineInterpreter.cs:69-116 | the character loop computes the tokens of the trimmed, space-terminated line; a blank line gives no tokens; no token is empty or holds a quote |
| CommandLineInterpreter.Tokenize | src/ExplorerGenieShared/CommandLineInterpreter.cs:69-116 | a blank line gives no tokens; since quotes only toggle the state and an empty buffer is never flushed, every token is non-empty and quote-free |
| CommandLineInterpreter.ScanStaysClean | src/ExplorerGenieShared/CommandLineInterpreter.cs:83-114 | from any state whose buffer and tokens are quote-free, every suffix of the loop keeps the buffer quote-free and the tokens non-empty and quote-free |
| CommandLineInterpreter.TokenizeWithoutQuotes | src/ExplorerGenieShared/CommandLineInterpreter.cs:75-114 | a line without quotes tokenizes into the trimmed line split on runs of spaces, as `Split(' ', RemoveEmptyEntries)` would |
| CommandLineInterpreter.ScanUnquoted | src/ExplorerGenieShared/CommandLineInterpreter.cs:94-113 | outside quotes, the spaces delimit the parts, the empty parts are dropped and the buffer ends empty |
| CommandLineInterpreter.ScanInsideQuote | src/ExplorerGenieShared/CommandLineInterpreter.cs:94-100 | inside a quote every character, spaces included, goes into the current token |
| CommandLineInterpreter.ScanWord | src/ExplorerGenieShared/CommandLineInterpreter.cs:83-114 | one bare or quoted word followed by a space is emitted as its text without the quotes, unless that text is empty |
| CommandLineInterpreter.ScanWords | src/ExplorerGenieShared/CommandLineInterpreter.cs:83-114 | a run of space-separated words yields their texts in order, the empty ones dropped |
| CommandLineInterpreter.TokenizeJoin | src/ExplorerGenieShared/CommandLineInterpreter.cs:69-116 | a command line composed of well-formed words that starts and ends visibly tokenizes back into the non-empty word texts |
| CommandLineInterpreter.TokenizeInvocation | src/ExplorerGenieShared/CommandLineInterpreter.cs:62-68 | the line the shell extension writes (optional quoted own path, bare action, quoted directory and items) tokenizes into exactly those texts |
| CommandLineInterpreter.ParseCommandLine | src/ExplorerGenieShared/CommandLineInterpreter.cs:24-48 | the result is the decoding of the tokens of the command line |
| CommandLineInterpreter.ParseParts | src/ExplorerGenieShared/CommandLineInterpreter.cs:29-47 | the loop over the items after the directory computes the decoding of the token list |
| CommandLineInterpreter.RemoveOwnExeName | src/ExplorerGenieShared/CommandLineInterpreter.cs:50-55 | the result is the token list or its tail, and it is the tail exactly when the first token equals the own path ignoring case |
| CommandLineInterpreter.ArgumentIsAction | src/ExplorerGenieShared/CommandLineInterpreter.cs:57-60 | true exactly when the token at the index exists and its first character is `-` |
| CommandLineInterpreter.Decode | src/ExplorerGenieShared/CommandLineInterpreter.cs:24-47 | the own path is dropped only as the first token and compared ignoring case; an action exists exactly when the next token starts with `-`; fewer than two remaining tokens give no paths, otherwise one path per item, each item combined with the first remaining token |
| CommandLineInterpreter.DecodeInvocation | src/ExplorerGenieShared/CommandLineInterpreter.cs:29-46 | for the shell extension's token list the action is recovered and every item is combined with the directory, in order |
| CommandLineInterpreter.DecodeRest | src/ExplorerGenieShared/CommandLineInterpreter.cs:31-46 | once the own path is gone, an action token followed by a directory and items decodes into the action and the combined items |
| CommandLineInterpreter.ParseInvocation | src/ExplorerGenieShared/CommandLineInterpreter.cs:24-116 | the whole protocol: parsing the command line the shell extension composes gives back the action and each item joined with the directory |
| CommandLineInterpreter.CombineInDirectory | src/ExplorerGenieShared/CommandLineInterpreter.cs:43 | a relative item is appended directly to a directory that already ends with a separator |
| CommandLineInterpreter.DecodeExample | src/ExplorerGenieSharedTest/CommandLineInterpreterTest.cs:44-51 | the tokens of the test's line, `-option1`, `D:\`, `file1.txt` and `file with space1.txt`, decode into the action `-option1` and the paths `D:\file1.txt`, `D:\file with space1.txt` |
| CommandLineInterpreter.DecodeActionOnly | src/ExplorerGenieSharedTest/CommandLineInterpreterTest.cs:54-59 | an action alone decodes into that action and no paths |
| GotoToolStarter.ExecutableLength | src/ExplorerGenieShared/GotoToolStarter.cs:79-126 | the executable is either bare (no white space or quote in it, white space or the end after it) or opens with the first quote and runs to the next quote of the same kind, or to the end when there is none; an empty line has length 0 |
| GotoToolStarter.DetermineExecutableLength | src/ExplorerGenieShared/GotoToolStarter.cs:79-126 | the character loop with the optional open quote computes the executable length of the recursive definition |
| GotoToolStarter.BareExecutableLength | src/ExplorerGenieShared/GotoToolStarter.cs:112-123 | an unquoted executable ends at the first white space, or at the end of the line |
| GotoToolStarter.QuotedExecutableLength | src/ExplorerGenieShared/GotoToolStarter.cs:91-110 | a quoted executable ends with its matching closing quote, quotes included; white space and the other kind of quote inside belong to it |
| GotoToolStarter.BareExecutableExamples | src/ExplorerGenieSharedTest/GotoToolStarterTest.cs:141-163 | `explorer.exe`, `explorer.exe ` and `explorer.exe param1` have an executable of length 12 |
| GotoToolStarter.QuotedExecutableExamples | src/ExplorerGenieSharedTest/GotoToolStarterTest.cs:144-148 | `'explorer.exe'` and `"explorer.exe"` have an executable of length 14 |
| GotoToolStarter.QuotedInsideExamples | src/ExplorerGenieSharedTest/GotoToolStarterTest.cs:150-157 | a space, an apostrophe inside double quotes, or a double quote inside apostrophes does not end the executable (length 15) |
| GotoToolStarter.SplitCommandLine | src/ExplorerGenieShared/GotoToolStarter.cs:65-71 | the executable carries no quote at either end; the arguments start without white space; a blank line gives an empty executable and empty arguments |
| GotoToolStarter.SplitQuotedCommand | src/ExplorerGenieShared/GotoToolStarter.cs:65-71 | a quoted executable and its arguments, with any white space around the line and any (or no) white space between the two, split into the name without quotes and the arguments |
| GotoToolStarter.SplitBareCommand | src/ExplorerGenieShared/GotoToolStarter.cs:65-71 | a bare executable and its arguments, with any white space around the line and a run of white space between the two, split into the executable and the arguments |
| GotoToolStarter.PaddedLine | src/ExplorerGenieShared/GotoToolStarter.cs:67 | trimming a padded command line leaves the executable, followed by the gap and the arguments when there are any |
| GotoToolStarter.TrimQuotesAround | src/ExplorerGenieShared/GotoToolStarter.cs:69 | trimming the quotes removes exactly the quotes around a name that does not start or end with a quote |
| GotoToolStarter.ExpandPlaceholders | src/ExplorerGenieShared/GotoToolStarter.cs:41-48 | a command line with none of the six placeholders passes the replacements unchanged |
| GotoToolStarter.ReplaceStep | src/ExplorerGenieShared/GotoToolStarter.cs:43-48 | one replacement turns the markers of its placeholder, and nothing else, into the value, as long as no literal text or value contains `{` |
| GotoToolStarter.ExpandSubstitutes | src/ExplorerGenieShared/GotoToolStarter.cs:42-48 | the six replacements in sequence are a single-pass substitution of every placeholder by its value, as long as no literal text or value contains `{` |
| GotoToolStarter.ExpandReplacesInsideValues | src/ExplorerGenieShared/GotoToolStarter.cs:43-47 | the replacements run one after the other, so a path containing `{f}` has that marker replaced again by the file name |
| GotoToolStarter.PlaceholderValuesFor | src/ExplorerGenieShared/GotoToolStarter.cs:32-39 | the directory value always ends with a backslash; a directory's path gets its trailing backslash and serves as the directory too, with an empty file name; a file keeps its path; the file name holds no separator |
| GotoToolStarter.ValuesFor | src/ExplorerGenieShared/GotoToolStarter.cs:29-39 | the path is trimmed before anything else and the directory test sees the trimmed path; the directory value ends with a backslash; a directory's path gets its trailing backslash and has an empty file name; a file keeps its trimmed path; the file name holds no separator |
| GotoToolStarter.FileValues | src/ExplorerGenieShared/GotoToolStarter.cs:35-39 | a file `dir\name` gives the full path, `dir\` and `name` |
| GotoToolStarter.ValuesBraceFree | src/ExplorerGenieShared/GotoToolStarter.cs:36-39 | the directory and the file name are cut from the path, so they hold no `{` the path lacks |
| GotoToolStarter.Prepare | src/ExplorerGenieShared/GotoToolStarter.cs:28-63 | the start information uses the shell in a normal window; the verb is `runas` exactly for an admin tool and `open` otherwise; the arguments start without white space; the file name carries no quote at either end |
| GotoToolStarter.StartInfo | src/ExplorerGenieShared/GotoToolStarter.cs:51-62 | the file name and the arguments are the split of the expanded command line, with the verb chosen by the admin flag |
| GotoToolStarter.PrepareSubstitutes | src/ExplorerGenieShared/GotoToolStarter.cs:42-52 | for a template without stray `{`, the executable and the arguments are the split of the single-pass substitution |
| GotoToolStarter.SubstitutedQuotedPair | src/ExplorerGenieSharedTest/GotoToolStarterTest.cs:36 | the template `exe "{x}" "{y}"` substitutes to `exe "vx" "vy"` |
| GotoToolStarter.PrepareQuotedPair | src/ExplorerGenieSharedTest/GotoToolStarterTest.cs:32-93 | `tool.exe "{x}" "{y}"` starts `tool.exe` with both values in quotes as its arguments, for any pair of placeholders and any path free of `{` |
| GotoToolStarter.PrepareConstantTemplate | src/ExplorerGenieSharedTest/GotoToolStarterTest.cs:12-29 | a command line without `{` is split as it is, whatever path is selected |
| GotoToolStarter.PrepareQuotedExecutable | src/ExplorerGenieSharedTest/GotoToolStarterTest.cs:96-115 | a quoted executable is started without its quotes and without the white space around the line, and the arguments that follow are passed unchanged |
| GotoToolStarter.PreparePaddedQuotedExecutable | src/ExplorerGenieSharedTest/GotoToolStarterTest.cs:111-114 | the template `  "to ol.exe"  ` starts `to ol.exe` with empty arguments |
| GotoToolStarter.PrepareEmptyTemplate | src/ExplorerGenieSharedTest/GotoToolStarterTest.cs:127-130 | an empty command line gives an empty file name and empty arguments |
| GotoToolStarter.PrepareArgumentOnly | src/ExplorerGenieSharedTest/GotoToolStarterTest.cs:122-125 | the command line `{P}` starts the selected path itself, without arguments |
| FilenameSorting.Weight | src/ExplorerGenieShared/FilenameSorter.cs:58-59 | white space, punctuation and symbols weigh less than digits, and digits less than letters, letters above Latin-1 included |
| FilenameSorting.WideLetterOrder | src/ExplorerGenieShared/FilenameSorter.cs:58-59 | a letter above Latin-1 (`š`) sorts after a digit and after a Latin letter, strictly |
| FilenameSorting.PrecedesAt | src/ExplorerGenieShared/FilenameSorter.cs:58-59 | two paths that agree up to a position are ordered by the weights of the first folded characters that differ, strictly |
| FilenameSorting.PrecedesTotal | src/ExplorerGenieShared/FilenameSorter.cs:58-59 | comparing ignoring case orders any two paths |
| FilenameSorting.PrecedesTransitive | src/ExplorerGenieShared/FilenameSorter.cs:58-59 | comparing ignoring case is transitive |
| FilenameSorting.PrecedesIgnoresCase | src/ExplorerGenieShared/FilenameSorter.cs:58-59 | paths equal ignoring case compare as equal in both directions |
| FilenameSorting.Insert | src/ExplorerGenieShared/FilenameSorter.cs:58-59 | inserting adds exactly one occurrence of the path to the list |
| FilenameSorting.InsertSorted | src/ExplorerGenieShared/FilenameSorter.cs:58-59 | inserting into a sorted list keeps it sorted |
| FilenameSorting.SortIgnoreCase | src/ExplorerGenieShared/FilenameSorter.cs:58-59 | the sorted list is a permutation of the input |
| FilenameSorting.SortIgnoreCaseSorted | src/ExplorerGenieShared/FilenameSorter.cs:58-59 | the sorted list is ordered ignoring case and keeps the length |
| FilenameSorting.Directories | src/ExplorerGenieShared/FilenameSorter.cs:50-56 | the directory group holds only directories |
| FilenameSorting.Files | src/ExplorerGenieShared/FilenameSorter.cs:50-56 | the file group holds only non-directories |
| FilenameSorting.Partition | src/ExplorerGenieShared/FilenameSorter.cs:48-56 | the two groups together are a permutation of the list, and each path lands in the group its test selects |
| FilenameSorting.Arranged | src/ExplorerGenieShared/FilenameSorter.cs:42-64 | the sorted list is a permutation of the original, of the same length |
| FilenameSorting.ArrangedBlocks | src/ExplorerGenieShared/FilenameSorter.cs:37-63 | directories form one sorted block at the top and files one sorted block below |
| FilenameSorting.DirectoriesBeforeFiles | src/ExplorerGenieShared/FilenameSorter.cs:38-39 | no file comes before a directory |
| FilenameSorting.ArrangedShort | src/ExplorerGenieShared/FilenameSorter.cs:44-45 | a list of fewer than two paths stays as it is |
| FilenameSorting.DotBeforeDigit | src/ExplorerGenieSharedTest/FilenameSorterTest.cs:32-34 | `file.abc` comes before `file2.abc`: the dot weighs less than the digit |
| FilenameSorting.DirectoriesBeforeTemp2 | src/ExplorerGenieSharedTest/FilenameSorterTest.cs:28-30 | `D:\temp\dir\abc` and `D:\temp\dir\cde` come before `D:\temp2\dir\fgh`: the backslash weighs less than the digit `2` |
| FilenameSorting.ArrangedExample | src/ExplorerGenieSharedTest/FilenameSorterTest.cs:11-36 | for a directory test that classifies the eight paths of the test as its delegate does (a path is a directory unless it contains `file`), they are arranged in exactly the order the test expects |
| FilenameSorting.FilenameSorter.constructor | src/ExplorerGenieShared/FilenameSorter.cs:32-35 | the sorter keeps the directory test it is given |
| FilenameSorting.FilenameSorter.Sort | src/ExplorerGenieShared/FilenameSorter.cs:42-64 | the array is rewritten in place as the sorted directories followed by the sorted files; null and short lists are left alone |
| FilenameSorting.FilenameSorter.Group | src/ExplorerGenieShared/FilenameSorter.cs:48-56 | the loop collects the directories and the files in their original order |
| FilenameSorting.FilenameSorter.Refill | src/ExplorerGenieShared/FilenameSorter.cs:61-63 | clearing and refilling leaves the directories followed by the files |
| ListExtensions.Mapped | src/ExplorerGenieShared/ListExtensions.cs:22-29 | the image has the same length, and every element is the modification of the element at the same index |
| ListExtensions.ModifyEach | src/ExplorerGenieShared/ListExtensions.cs:22-29 | the array is replaced in place, element by element, by its image |
| ListExtensions.MappedIdentity | src/ExplorerGenieShared/ListExtensions.cs:22-29 | the identity modification leaves the list unchanged |
| ListExtensions.MappedTwice | src/ExplorerGenieShared/ListExtensions.cs:22-29 | two passes equal one pass of the composed modification |
| ListExtensions.MappedAppend | src/ExplorerGenieShared/ListExtensions.cs:22-29 | modifying a concatenation modifies each part |
| ListExtensions.MappedExample | src/ExplorerGenieSharedTest/ListExtensionsTest.cs:11-21 | appending ` is sweet` to `Sugus` and `Caramel` gives `Sugus is sweet` and `Caramel is sweet` |
| PathUtils.IncludeTrailingBackslash | src/ExplorerGenieShared/GotoToolStarter.cs:33 | the result ends with a backslash; it is the path, or the path with one backslash appended; a path that already ends with one is kept |
| PathUtils.IncludeTrailingBackslashIdempotent | src/ExplorerGenieShared/GotoToolStarter.cs:33-38 | adding the trailing backslash twice is the same as once |
| PathUtils.ConvertToC | src/ExplorerGenieShared/PathUtils.cs:145-148 | the C form is the character-by-character escaping of the path; it is longer by the number of backslashes, and reading it back as C gives the path |
| PathUtils.ReplaceBackslashEscapes | src/ExplorerGenieShared/PathUtils.cs:147 | replacing `\` by `\\` doubles every backslash and keeps every other character |
| PathUtils.EscapedLength | src/ExplorerGenieShared/PathUtils.cs:145-148 | escaping lengthens the path by its number of backslashes |
| PathUtils.UnescapedEscaped | src/ExplorerGenieShared/PathUtils.cs:145-148 | unescaping an escaped path gives the path back |
| PathUtils.ConvertToOutlook | src/ExplorerGenieShared/PathUtils.cs:155-173 | a drive path becomes `<file://path>`; otherwise a network path becomes `<path>`; anything else stays as it is |
| PathUtils.OutlookLinkContainsPath | src/ExplorerGenieShared/PathUtils.cs:159-170 | a link is enclosed in angle brackets and ends with the path |
| PathUtils.ConvertForCopyFileAction | src/ExplorerGenieShared/PathUtils.cs:24-52 | every path goes through the UNC expansion if requested, then the chosen format, then the file name if requested; the Html format throws ArgumentOutOfRangeException after the UNC step |
| PathUtils.ConvertForCopyEmailAction | src/ExplorerGenieShared/PathUtils.cs:59-79 | every path goes through the UNC expansion if requested, then the Outlook or Thunderbird format |
| LanguageResources.IsComment | src/ExplorerGenieShared/Services/LanguageServiceFileResourceReader.cs:105-108 | a line is a comment exactly when `//` follows a front of the line that is all white space |
| LanguageResources.CommentAfterIndent | src/ExplorerGenieShared/Services/LanguageServiceFileResourceReader.cs:107 | the trimmed line starts with `//` exactly when `//` follows some all-white-space front of the line |
| LanguageResources.IndentedComment | src/ExplorerGenieShared/Services/LanguageServiceFileResourceReader.cs:105-108 | `//` after any white space marks a comment |
| LanguageResources.NotComment | src/ExplorerGenieShared/Services/LanguageServiceFileResourceReader.cs:105-108 | a line whose first visible character is not `/` is not a comment |
| LanguageResources.TrySplitLine | src/ExplorerGenieShared/Services/LanguageServiceFileResourceReader.cs:119-134 | a blank line, or a trimmed line without a space, is rejected |
| LanguageResources.TrySplitLineParts | src/ExplorerGenieShared/Services/LanguageServiceFileResourceReader.cs:126-133 | an accepted line gives a non-empty, space-free key and a non-empty text, both without white space at their ends |
| LanguageResources.SplitLineOfEntry | src/ExplorerGenieShared/Services/LanguageServiceFileResourceReader.cs:119-134 | `key`, a run of white space starting with a space, and `text` split into exactly that key and that text |
| LanguageResources.ReplaceSpecialTags | src/ExplorerGenieShared/Services/LanguageServiceFileResourceReader.cs:141-150 | a text without the tag `\n` is returned unchanged |
| LanguageResources.NoNewlineTagLeft | src/ExplorerGenieShared/Services/LanguageServiceFileResourceReader.cs:147 | replacing `\n` by a line break leaves no `\n` behind |
| LanguageResources.ReplaceSpecialTagsRemovesTags | src/ExplorerGenieShared/Services/LanguageServiceFileResourceReader.cs:141-150 | no tag `\n` is left in the result |
| LanguageResources.NewlineTagBetween | src/ExplorerGenieShared/Services/LanguageServiceFileResourceReader.cs:144-147 | `\n` between plain text becomes one line break |
| LanguageResources.CrLfTagBetween | src/ExplorerGenieShared/Services/LanguageServiceFileResourceReader.cs:144-147 | `\r\n` between plain text becomes one line break, not two |
| LanguageResources.Definition | src/ExplorerGenieShared/Services/LanguageServiceFileResourceReader.cs:89-92 | a comment defines nothing; a definition has the key the line split gives |
| LanguageResources.Put | src/ExplorerGenieShared/Services/LanguageServiceFileResourceReader.cs:83-93 | storing sets the text under the key ignoring case; an existing entry keeps the casing of its first key; every other key is untouched |
| LanguageResources.Definitions | src/ExplorerGenieShared/Services/LanguageServiceFileResourceReader.cs:87-92 | one definition per line, in order |
| LanguageResources.ResourcesOfDefinitions | src/ExplorerGenieShared/Services/LanguageServiceFileResourceReader.cs:86-95 | storing line by line equals collecting the definitions of all lines |
| LanguageResources.ReadFromStream | src/ExplorerGenieShared/Services/LanguageServiceFileResourceReader.cs:81-97 | the loop over the lines builds the dictionary of the line-by-line definition |
| LanguageResources.ReadLine | src/ExplorerGenieShared/Services/LanguageServiceFileResourceReader.cs:89-93 | the body of the loop computes one line's definition |
| LanguageResources.EntriesUnderFoldedKey | src/ExplorerGenieShared/Services/LanguageServiceFileResourceReader.cs:83 | every entry is stored under its key folded to lower case |
| LanguageResources.LookupAfter | src/ExplorerGenieShared/Services/LanguageServiceFileResourceReader.cs:93 | after one more line, a lookup finds that line's text if it defines the key ignoring case, and the earlier text otherwise |
| LanguageResources.LastEntryWins | src/ExplorerGenieShared/Services/LanguageServiceFileResourceReader.cs:86-95 | a key maps to the text of its last definition |
| LanguageResources.MissingKey | src/ExplorerGenieShared/Services/LanguageServiceFileResourceReader.cs:86-95 | a key no definition names is missing |
| LanguageResources.LastDefinitionWins | src/ExplorerGenieShared/Services/LanguageServiceFileResourceReader.cs:81-97 | in a file, the last line that defines a key decides its text |
| LanguageResources.UndefinedKeyMissing | src/ExplorerGenieShared/Services/LanguageServiceFileResourceReader.cs:81-97 | a key that no line of the file defines is missing |
| LanguageResources.SkippedLine | src/ExplorerGenieShared/Services/LanguageServiceFileResourceReader.cs:89-90 | a comment or a line that does not split leaves the dictionary unchanged |
| Models.CustomGotoToolModel.constructor | src/ExplorerGenieShared/Models/CustomGotoToolModel.cs:16-31 | a new tool has an empty title and command line and runs without elevation |
| Models.CustomGotoToolModel.Clone | src/ExplorerGenieShared/Models/CustomGotoToolModel.cs:37-44 | the copy is a new object with the same three fields, equal to the original in both directions |
| Models.CustomGotoToolModel.Equals | src/ExplorerGenieShared/Models/CustomGotoToolModel.cs:53-61 | false for null, true for the tool itself, and otherwise true exactly when both tools hold the same title, command line and admin flag |
| Models.EqualsIsEquivalence | src/ExplorerGenieShared/Models/CustomGotoToolModel.cs:53-61 | tool equality is reflexive, symmetric and transitive |
| Models.CustomGotoToolModelList.constructor | src/ExplorerGenieShared/Models/CustomGotoToolModel.cs:81 | a new list is empty |
| Models.CustomGotoToolModelList.Equals | src/ExplorerGenieShared/Models/CustomGotoToolModel.cs:104-116 | false for null; otherwise true exactly when both lists have the same length and equal tools at every index |
| Models.CustomGotoToolModelList.Clone | src/ExplorerGenieShared/Models/CustomGotoToolModel.cs:87-95 | a new list of new tool objects, of the same length, equal to the original item by item in both directions |
| CmdActionOpenTool.ParseInt32 | src/ExplorerGenieCmd/CmdActionOpenTool.cs:102 | a parsed value lies in the 32-bit range; a failure is a FormatException or an OverflowException |
| CmdActionOpenTool.ParseTrimmed | src/ExplorerGenieCmd/CmdActionOpenTool.cs:102 | the text between the white space parses into a value in the 32-bit range, or fails with a FormatException or an OverflowException |
| CmdActionOpenTool.DigitsRoundTrip | src/ExplorerGenieCmd/CmdActionOpenTool.cs:102 | reading back the decimal digits of a number gives the number |
| CmdActionOpenTool.ParseFormat | src/ExplorerGenieCmd/CmdActionOpenTool.cs:102 | every 32-bit number written in decimal parses back to itself |
| CmdActionOpenTool.ParseWithoutMinus | src/ExplorerGenieCmd/CmdActionOpenTool.cs:97-102 | a part without `-` never parses to a negative number, so a tool index is never negative |
| CmdActionOpenTool.ParseIgnoresPadding | src/ExplorerGenieCmd/CmdActionOpenTool.cs:102 | white space around the number does not change the outcome |
| CmdActionOpenTool.ParsePaddedNumber | src/ExplorerGenieCmd/CmdActionOpenTool.cs:102 | a number in range with white space around it is read back |
| CmdActionOpenTool.ParsePlusSign | src/ExplorerGenieCmd/CmdActionOpenTool.cs:102 | a leading `+` is accepted |
| CmdActionOpenTool.ParseOutOfRange | src/ExplorerGenieCmd/CmdActionOpenTool.cs:102 | a number outside the 32-bit range is an OverflowException, not a wrapped value |
| CmdActionOpenTool.ParseBlank | src/ExplorerGenieCmd/CmdActionOpenTool.cs:102 | only white space is a FormatException |
| CmdActionOpenTool.ParseSpaceInside | src/ExplorerGenieCmd/CmdActionOpenTool.cs:102 | a space between digits is a FormatException |
| CmdActionOpenTool.ParseCommandLineAction | src/ExplorerGenieCmd/CmdActionOpenTool.cs:95-103 | an ArgumentException exactly when the parameter does not have three parts between dashes; otherwise the tool is user defined exactly when the second part is `U` ignoring case, and the index is what `int.Parse` makes of the third part (never negative); with three parts it succeeds exactly when `int.Parse` succeeds on the third part, and a failure carries `int.Parse`'s own exception |
| CmdActionOpenTool.SplitThreeParts | src/ExplorerGenieCmd/CmdActionOpenTool.cs:97 | `-keyword-letter-rest` splits into keyword, letter and rest |
| CmdActionOpenTool.ParseActionTwoParts | src/ExplorerGenieCmd/CmdActionOpenTool.cs:98-99 | a parameter with two parts is an ArgumentException |
| CmdActionOpenTool.ParseActionParts | src/ExplorerGenieCmd/CmdActionOpenTool.cs:97-102 | any keyword is accepted, the letter is compared ignoring case, and the digits give the index |
| CmdActionOpenTool.ParseActionParameter | src/ExplorerGenieCmd/CmdActionOpenTool.cs:84-103 | the parameter `-OpenTool-U-n` or `-OpenTool-P-n` parses back into the tool it names |
| CmdActionOpenTool.ParseActionLowerCase | src/ExplorerGenieCmd/CmdActionOpenTool.cs:101 | a lower-case `u` also asks for a user defined tool |
| CmdActionOpenTool.ParseActionNotANumber | src/ExplorerGenieCmd/CmdActionOpenTool.cs:102 | a third part starting with anything but a digit, a sign or white space is a FormatException |
| CmdActionOpenTool.RemainderOfTwo | src/ExplorerGenieCmd/CmdActionOpenTool.cs:63 | C#'s `% 2` is -1, 0 or 1; it is zero exactly for even numbers, and otherwise has the sign of the dividend |
| CmdActionOpenTool.RunAsAdmin | src/ExplorerGenieCmd/CmdActionOpenTool.cs:63 | with the truncating remainder, exactly the positive odd indices run elevated; negative odd indices do not |
| CmdActionOpenTool.PreDefinedCommandLine | src/ExplorerGenieCmd/CmdActionOpenTool.cs:64-80 | a command line exists exactly for the indices 0 to 5 |
| CmdActionOpenTool.PreDefinedPairs | src/ExplorerGenieCmd/CmdActionOpenTool.cs:63-77 | the entries come in pairs with the same command line, the even one normal and the odd one elevated |
| CmdActionOpenTool.PreDefinedDirectoryMatters | src/ExplorerGenieCmd/CmdActionOpenTool.cs:72-77 | only the Explorer entries depend on whether the path is a directory |
| CmdActionOpenTool.BuildPreDefinedTool | src/ExplorerGenieCmd/CmdActionOpenTool.cs:61-81 | null exactly outside 0 to 5; otherwise a new tool with the table's command line and the elevation of odd indices |
| CmdActionOpenTool.PrepareOneSlot | src/ExplorerGenieShared/GotoToolStarter.cs:42-70 | a template `executable before{p}after` starts the executable with the value of `p` in place of the marker |
| CmdActionOpenTool.PreDefinedLinesPlain | src/ExplorerGenieCmd/CmdActionOpenTool.cs:66-77 | every predefined command line has a plain executable and brace-free text around its one placeholder |
| CmdActionOpenTool.PreDefinedTemplates | src/ExplorerGenieCmd/CmdActionOpenTool.cs:66-77 | every predefined command line is the template of one placeholder between the texts of its table line, after its executable |
| CmdActionOpenTool.PreparePreDefinedTool | src/ExplorerGenieCmd/CmdActionOpenTool.cs:46-50 | a predefined tool starts its executable (console, PowerShell or Explorer) with the directory or the path in place of its placeholder, elevated for odd indices |
| CmdActionOpenTool.CmdActionOpenTool.constructor | src/ExplorerGenieCmd/CmdActionOpenTool.cs:31-35 | the action keeps the parsed tool kind and index |
| CmdActionOpenTool.CmdActionOpenTool.Create | src/ExplorerGenieCmd/CmdActionOpenTool.cs:31-35 | the constructor fails with the parser's exception, or builds an action with the parsed kind and index |
| CmdActionOpenTool.CmdActionOpenTool.Execute | src/ExplorerGenieCmd/CmdActionOpenTool.cs:38-52 | the selection is sorted in place; nothing starts when there is no path or the first path is empty; a user defined tool is taken from the settings list, and an index outside it throws; a predefined tool is built for the first path, and an index outside the table fails; a tool that exists is prepared for the first path |
| Strings.TrimStartBy | src/ExplorerGenieShared/GotoToolStarter.cs:70 | the result is a suffix of the input; every removed character is trimmable; the result does not start with a trimmable one |
| Strings.TrimEndBy | src/ExplorerGenieShared/Services/LanguageServiceFileResourceReader.cs:131 | the result is a prefix of the input; every removed character is trimmable; the result does not end with a trimmable one |
| Strings.TrimByAround | src/ExplorerGenieShared/GotoToolStarter.cs:67 | trimming removes exactly the trimmable padding around a string with kept ends |
| Strings.ToLower | src/ExplorerGenieShared/CommandLineInterpreter.cs:53 | case folding keeps the length, leaves no upper-case letter, turns every upper-case letter into its small letter and keeps every other character |
| Strings.ToLowerIdempotent | src/ExplorerGenieShared/CommandLineInterpreter.cs:53 | folding twice is folding once |
| Strings.ToLowerWithoutUpper | src/ExplorerGenieShared/CommandLineInterpreter.cs:53 | a text without upper-case letters is its own folded form |
| Strings.IndexOf | src/ExplorerGenieShared/Services/LanguageServiceFileResourceReader.cs:127 | -1 when the character is absent, otherwise its first position |
| Strings.Replace | src/ExplorerGenieShared/PathUtils.cs:147 | a string without the pattern is returned unchanged |
| Strings.Split | src/ExplorerGenieCmd/CmdActionOpenTool.cs:97 | no part is empty and no part contains the separator |
| SystemPath.Combine | src/ExplorerGenieShared/CommandLineInterpreter.cs:43 | an empty item gives the directory; a rooted item, or an empty directory, gives the item; otherwise exactly one separator joins them |
| SystemPath.GetFileName | src/ExplorerGenieShared/GotoToolStarter.cs:39 | the file name is a suffix of the path without any separator |
| SystemPath.GetDirectoryName | src/ExplorerGenieShared/GotoToolStarter.cs:38 | the directory is a proper prefix of the path, or empty for an empty path |

## Left out

- **Null strings.** Strings are `seq<char>`, so the null handling of the .NET code is not modelled. This covers `DetermineExecutableLength(null)`, `string.IsNullOrEmpty`, and the null menu title of a predefined tool. A new tool model has empty strings.
- **Case folding.** It covers ASCII and Latin-1 only.
- FilenameSorting.Precedes: the `InvariantCultureIgnoreCase` order is approximated by one weight per folded character in three classes. White space, punctuation and symbols come first, then digits, then letters. A character counts as a letter when it is a letter of ASCII or Latin-1, or any character above Latin-1 outside the blocks U+2000 to U+2BFF, U+3000 to U+303F and U+E000 to U+F8FF. Several things are not modelled:
  - non-Latin digits and symbols in other blocks count as letters;
  - within a class, characters keep the order of their codes. So a letter such as `š` sorts after `z` rather than next to `s`, and `+` sorts before `.`, where the culture table puts the mathematical symbols after the other punctuation;
  - the culture's multi-level weights: accents as a secondary difference, the word sort that ignores hyphens and apostrophes, and expansions such as `æ`.
- CommandLineInterpreter.RemoveOwnExeName and LanguageResources.Put: both source comparisons use `InvariantCultureIgnoreCase` (src/ExplorerGenieShared/CommandLineInterpreter.cs:53, src/ExplorerGenieShared/LanguageServiceFileResourceReader.cs:83). The model treats culture equality as equality of the `ToLower` forms. It therefore does not capture ignorable characters: .NET holds `gui\u00ADClose` and `guiClose` as one key, the model as two. Expansions, where one character compares equal to two, are not captured either.
- **Culture-sensitive prefix test.** `String.StartsWith(string)` compares under the current culture, which ignores zero-width characters such as U+200B and the soft hyphen. The model compares character by character. This concerns `ArgumentIsAction` (`-`), `IsComment` (`//`) and the network-path test of `ConvertToOutlook` (`\\`).
- FilenameSorting.SortIgnoreCase: `List.Sort` is an unstable introsort. The model uses a stable insertion sort. It therefore fixes an order among names that are equal ignoring case, which .NET does not promise.
- **Path exceptions.** `Path.Combine`, `GetFileName` and `GetDirectoryName` are modelled without their exceptions for invalid characters. The volume separator is treated only as a name boundary.
- SystemPath.GetDirectoryName: the model returns what precedes the last `\` or `/`, as written. It returns the empty string for an empty path or one without a separator. It does not model root handling: .NET returns null for a root, where the model gives `C:` for `C:\` and `\\server` for `\\server\share`. It does not model normalisation either: .NET turns `/` into `\` and collapses doubled separators in its result.
- **The Html copy format.** `CopyFileFormat.Html` is documented as copying the path with slashes for Html files (src/ExplorerGenieShared/Models/CopyFileFormat.cs:24-25). Yet no branch of `PathUtils` converts for it, and `ConvertForCopyFileAction` throws for it. The model keeps the throw. No Html conversion exists in the code to compare against, so none is modelled.
- **IncludeTrailingBackslash.** Its source file is not part of this model. It is modelled from its two call sites in `GotoToolStarter.Prepare`.
- **Reading the language file.** `StreamReader.ReadLine`'s splitting into lines, the UTF-8 decoding, `LoadTextResources`, `BuildResourceFilePath` and the embedded-resource fallback are file and assembly I/O. `ReadFromStream` takes the lines as a sequence.
- **UNC and URI conversion.** `ExpandUncFilename` calls the Windows networking API and `ConvertToUri` calls `System.Uri`. Both are function parameters.
- **Starting the process.** `GotoToolStarter.StartProcess` is left out: it calls `Process.Start`. `Execute` returns the start information it would hand over.
- **Environment lookups.** `Directory.Exists` is left out: it queries the file system. It becomes the `directoryExists` parameter, and the default `FilenameSorter` constructor, which binds it, is not modelled.
- **The helper's own path.** `Assembly.GetExecutingAssembly().Location` becomes the `ownExeName` parameter.
- **Settings.** The settings service and `LoadSettingsOrDefault` become the `customGotoTools` list passed to `Execute`. `CmdActionFactory` and the other actions are not part of this model.
- **GetHashCode.** The hash codes of the tool model and its list are left out: no property of the core depends on them.
- CmdActionOpenTool.ParseInt32: culture-specific signs and trailing NUL characters, which `int.Parse` also accepts, are not modelled. The number style is the default integer style: white space, an optional `+` or `-`, then decimal digits.
- CmdActionOpenTool.CmdActionOpenTool.Execute: the NullReferenceException that `Prepare` raises for a missing predefined tool is modelled as the outcome `Failed(NullReferenceException)` rather than as an exception.
- GotoToolStarter.ExpandSubstitutes: the single-pass reading holds only when neither the template text nor the values contain `{`. Otherwise the six replacements act on each other's output, and ExpandReplacesInsideValues shows one such case.
