/**
  The path conversions of the copy-path actions: C escaping, the Outlook link
  form, and the two list conversions that apply them to every selected path.
  The UNC expansion (a network API call) and the URI conversion (System.Uri)
  are parameters.
 */
module PathUtils {
  import opened Wrappers
  import opened Strings
  import SystemPath
  import ListExtensions

  const Backslash: char := '\\'

  /** A path that ends with `\`: the input when it already does, else the input with `\` appended. */
  function IncludeTrailingBackslash(path: string): (r: string)
    ensures r != [] && r[|r| - 1] == Backslash
    ensures r == path || r == path + [Backslash]
    ensures path != [] && path[|path| - 1] == Backslash ==> r == path
  {
    if path != [] && path[|path| - 1] == Backslash then path else path + [Backslash]
  }

  lemma IncludeTrailingBackslashIdempotent(path: string)
    ensures IncludeTrailingBackslash(IncludeTrailingBackslash(path)) == IncludeTrailingBackslash(path)
  {
  }

  // ---------------------------------------------------------------------------
  // C escaping

  /** Escapes a path for C source: every `\` is doubled and every other character is kept, so
      the result is longer by the number of backslashes and reading it back gives the path. */
  function ConvertToC(filename: string): (r: string)
    ensures r == Escaped(filename)
    ensures |r| == |filename| + CountOf(filename, Backslash)
    ensures Unescaped(r) == filename
  {
    ReplaceBackslashEscapes(filename);
    EscapedLength(filename);
    UnescapedEscaped(filename);
    Replace(filename, [Backslash], [Backslash, Backslash])
  }

  /** The escaping character by character: `\` becomes `\\`, every other character stays. */
  function Escaped(s: string): string
    decreases |s|
  {
    if s == [] then []
    else (if s[0] == Backslash then [Backslash, Backslash] else [s[0]]) + Escaped(s[1..])
  }

  /** Undoes the escaping: `\\` becomes `\`. */
  function Unescaped(s: string): string
    decreases |s|
  {
    if s == [] then []
    else if |s| >= 2 && s[0] == Backslash && s[1] == Backslash then [Backslash] + Unescaped(s[2..])
    else [s[0]] + Unescaped(s[1..])
  }

  function CountOf(s: string, c: char): nat
    decreases |s|
  {
    if s == [] then 0 else (if s[0] == c then 1 else 0) + CountOf(s[1..], c)
  }

  /** Replacing `\` by `\\` doubles each backslash and changes no other character. */
  lemma {:induction false} ReplaceBackslashEscapes(s: string)
    ensures Replace(s, [Backslash], [Backslash, Backslash]) == Escaped(s)
    decreases |s|
  {
    if s != [] {
      ReplaceBackslashEscapes(s[1..]);
      assert s == [s[0]] + s[1..];
      if s[0] == Backslash {
        ReplaceHit(s[1..], [Backslash], [Backslash, Backslash]);
      } else {
        ReplaceSkip([s[0]], s[1..], [Backslash], [Backslash, Backslash]);
      }
    }
  }

  /** The escaped path is longer by the number of backslashes. */
  lemma {:induction false} EscapedLength(s: string)
    ensures |Escaped(s)| == |s| + CountOf(s, Backslash)
    decreases |s|
  {
    if s != [] {
      EscapedLength(s[1..]);
    }
  }

  /** Unescaping recovers the original path. */
  lemma {:induction false} UnescapedEscaped(s: string)
    ensures Unescaped(Escaped(s)) == s
    decreases |s|
  {
    if s != [] {
      UnescapedEscaped(s[1..]);
      var e := Escaped(s);
      if s[0] == Backslash {
        assert e[2..] == Escaped(s[1..]);
      } else {
        assert e[1..] == Escaped(s[1..]);
        assert e[0] == s[0];
        if |e| >= 2 && e[0] == Backslash {
          assert false;
        }
      }
      assert s == [s[0]] + s[1..];
    }
  }

  // ---------------------------------------------------------------------------
  // Outlook links

  /** A path with a drive letter, like `C:\temp\file.txt`. */
  predicate HasDrive(filename: string) {
    |filename| >= 2 && filename[1] == ':'
  }

  /** A network path, like `\\my-server\temp\file.txt`. */
  predicate IsNetworkPath(filename: string) {
    StartsWith(filename, [Backslash, Backslash])
  }

  /** Formats a path for pasting into an Outlook mail: a drive path becomes a `file://` link
      in angle brackets, a network path is put in angle brackets, anything else stays. */
  function ConvertToOutlook(filename: string): (r: string)
    ensures HasDrive(filename) ==> r == "<file://" + filename + ">"
    ensures !HasDrive(filename) && IsNetworkPath(filename) ==> r == "<" + filename + ">"
    ensures !HasDrive(filename) && !IsNetworkPath(filename) ==> r == filename
  {
    if |filename| >= 2 then
      if filename[1] == ':' then "<file://" + filename + ">"
      else if StartsWith(filename, [Backslash, Backslash]) then "<" + filename + ">"
      else filename
    else filename
  }

  /** The original path can be read back from every converted drive or network path. */
  lemma OutlookLinkContainsPath(filename: string)
    requires HasDrive(filename) || IsNetworkPath(filename)
    ensures var r := ConvertToOutlook(filename);
      |r| >= |filename| + 2 && r[0] == '<' && r[|r| - 1] == '>'
      && r[|r| - 1 - |filename|..|r| - 1] == filename
  {
    var r := ConvertToOutlook(filename);
    if HasDrive(filename) {
      assert r == "<file://" + filename + ">";
      assert r[|r| - 1 - |filename|..|r| - 1] == ("<file://" + filename + ">")[8..8 + |filename|];
    } else {
      assert r == "<" + filename + ">";
    }
  }

  // ---------------------------------------------------------------------------
  // Converting the selected paths

  datatype CopyFileFormat = OriginalPath | Uri | C | Html
  datatype CopyEmailFormat = Outlook | Thunderbird

  /** The copy-file settings the conversion reads. */
  datatype CopyFileSettings = CopyFileSettings(convertToUnc: bool, format: CopyFileFormat, onlyFilename: bool)

  /** The copy-email settings the conversion reads. */
  datatype CopyEmailSettings = CopyEmailSettings(convertToUnc: bool, format: CopyEmailFormat)

  /** What the copy-file conversion makes of one path, for every format it supports. */
  function CopyFileConversion(settings: CopyFileSettings, expandUnc: string -> string, convertToUri: string -> string, file: string): string
    requires settings.format != Html
  {
    var unc := if settings.convertToUnc then expandUnc(file) else file;
    var formatted := match settings.format
      case OriginalPath => unc
      case Uri => convertToUri(unc)
      case C => ConvertToC(unc);
    if settings.onlyFilename then SystemPath.GetFileName(formatted) else formatted
  }

  /** What the copy-email conversion makes of one path. */
  function CopyEmailConversion(settings: CopyEmailSettings, expandUnc: string -> string, convertToUri: string -> string, file: string): string {
    var unc := if settings.convertToUnc then expandUnc(file) else file;
    match settings.format
      case Outlook => ConvertToOutlook(unc)
      case Thunderbird => convertToUri(unc)
  }

  /** The selection after the UNC step alone. */
  function AfterUnc(filenames: seq<string>, convertToUnc: bool, expandUnc: string -> string): seq<string> {
    if convertToUnc then ListExtensions.Mapped(filenames, expandUnc) else filenames
  }

  /** Converts every path for the copy-file action. The Html format is not supported: it fails
      with ArgumentOutOfRangeException after the UNC step has already changed the list. */
  method ConvertForCopyFileAction(filenames: array<string>, settings: CopyFileSettings,
                                  expandUnc: string -> string, convertToUri: string -> string)
    returns (outcome: Outcome)
    modifies filenames
    ensures settings.format == Html ==>
      outcome == Thrown(ArgumentOutOfRangeException)
      && filenames[..] == AfterUnc(old(filenames[..]), settings.convertToUnc, expandUnc)
    ensures settings.format != Html ==>
      outcome == Completed
      && filenames[..] == ListExtensions.Mapped(old(filenames[..]), file => CopyFileConversion(settings, expandUnc, convertToUri, file))
  {
    if settings.convertToUnc {
      ListExtensions.ModifyEach(filenames, expandUnc);
    }
    match settings.format {
      case OriginalPath =>
      case Uri =>
        ListExtensions.ModifyEach(filenames, convertToUri);
      case C =>
        ListExtensions.ModifyEach(filenames, ConvertToC);
      case Html =>
        return Thrown(ArgumentOutOfRangeException);
    }
    if settings.onlyFilename {
      ListExtensions.ModifyEach(filenames, SystemPath.GetFileName);
    }
    outcome := Completed;
  }

  /** Converts every path for the copy-email action. */
  method ConvertForCopyEmailAction(filenames: array<string>, settings: CopyEmailSettings,
                                   expandUnc: string -> string, convertToUri: string -> string)
    modifies filenames
    ensures filenames[..] == ListExtensions.Mapped(old(filenames[..]), file => CopyEmailConversion(settings, expandUnc, convertToUri, file))
  {
    if settings.convertToUnc {
      ListExtensions.ModifyEach(filenames, expandUnc);
    }
    match settings.format {
      case Outlook =>
        ListExtensions.ModifyEach(filenames, ConvertToOutlook);
      case Thunderbird =>
        ListExtensions.ModifyEach(filenames, convertToUri);
    }
  }
}
