/**
 * Locating and creating the game-state-integration configuration file.
 *
 * At start-up the program takes the full path of the running game executable,
 * drops its last three `\`-separated components (the executable name and the
 * two folders `bin\win64` under the install root), and places the file
 * `gamestate_integration_admiralbulldogVoice.cfg` in the folder
 * `dota\cfg\gamestate_integration` under that root. The file is written only
 * when it does not exist yet. The two ways the path computation stops the
 * program become an error value, and the file system becomes a map from file
 * paths to file contents. Creating the folder, and the exit taken when that or
 * the write is refused, are not part of this model.
 */
module GsiConfig {
  import opened Wrappers

  /** The character the executable path is split on. */
  const PathSeparator: char := '\\'

  /** Folder of the configuration file, relative to the install root. */
  const GsiFolderSuffix: string := "\\dota\\cfg\\gamestate_integration"

  /** Name of the configuration file, appended to the folder. */
  const GsiFileSuffix: string := "\\gamestate_integration_admiralbulldogVoice.cfg"

  /** The lines of the configuration file: push to port 4000 and the state categories wanted. */
  const GsiSettings: seq<string> := [
    "\"Dota 2 Integration Configuration\"",
    "{",
    "    \"uri\"           \"http://localhost:4000\"",
    "    \"timeout\"       \"5.0\"",
    "    \"buffer\"        \"0.1\"",
    "    \"throttle\"      \"0.1\"",
    "    \"heartbeat\"     \"30.0\"",
    "    \"data\"",
    "    {",
    "        \"provider\"      \"1\"",
    "        \"map\"           \"1\"",
    "        \"player\"        \"1\"",
    "        \"hero\"          \"1\"",
    "        \"abilities\"     \"1\"",
    "        \"items\"         \"1\"",
    "    }",
    "}"
  ]

  // ---------------------------------------------------------------------------
  // String.Split(char) and String.Join(string, ...)
  // ---------------------------------------------------------------------------

  /**
   * Splits `s` at every occurrence of `sep`, keeping empty pieces, as .NET's
   * `String.Split(char)` does: there is always at least one piece and no piece
   * contains the separator.
   */
  function Split(s: string, sep: char): (parts: seq<string>)
    ensures |parts| >= 1
    ensures forall i :: 0 <= i < |parts| ==> sep !in parts[i]
    decreases |s|
  {
    if |s| == 0 then [""]
    else
      var rest := Split(s[1..], sep);
      if s[0] == sep then [""] + rest
      else [[s[0]] + rest[0]] + rest[1..]
  }

  /** Sum of the lengths of `parts`. */
  function TotalLength(parts: seq<string>): nat
    decreases |parts|
  {
    if |parts| == 0 then 0 else |parts[0]| + TotalLength(parts[1..])
  }

  /**
   * Concatenates `parts` with `sep` between neighbours, as .NET's `String.Join`
   * does: no pieces give the empty string; otherwise the result starts with the
   * first piece and holds every piece plus one separator between each two.
   */
  function Join(sep: string, parts: seq<string>): (r: string)
    ensures |parts| == 0 ==> r == ""
    ensures |parts| >= 1 ==> parts[0] <= r
    ensures |parts| >= 1 ==> |r| == TotalLength(parts) + |sep| * (|parts| - 1)
    decreases |parts|
  {
    if |parts| == 0 then ""
    else if |parts| == 1 then parts[0]
    else parts[0] + sep + Join(sep, parts[1..])
  }

  /** Number of occurrences of `c` in `s`. */
  function Count(s: string, c: char): nat
    decreases |s|
  {
    if |s| == 0 then 0 else (if s[0] == c then 1 else 0) + Count(s[1..], c)
  }

  /** Splitting yields one more piece than there are separators. */
  lemma {:induction false} SplitLength(s: string, sep: char)
    ensures |Split(s, sep)| == Count(s, sep) + 1
    decreases |s|
  {
    if |s| > 0 {
      SplitLength(s[1..], sep);
    }
  }

  /** Joining the pieces of a split with the same separator gives back the string. */
  lemma {:induction false} JoinSplit(s: string, sep: char)
    ensures Join([sep], Split(s, sep)) == s
    decreases |s|
  {
    if |s| > 0 {
      var rest := Split(s[1..], sep);
      JoinSplit(s[1..], sep);
      if s[0] == sep {
        assert Split(s, sep) == [""] + rest;
        assert Join([sep], [""] + rest) == "" + [sep] + Join([sep], rest);
      } else if |rest| == 1 {
        assert Split(s, sep) == [[s[0]] + rest[0]];
      } else {
        var parts := Split(s, sep);
        assert parts == [[s[0]] + rest[0]] + rest[1..];
        assert parts[1..] == rest[1..];
        assert Join([sep], parts) == [s[0]] + rest[0] + [sep] + Join([sep], rest[1..]);
        assert Join([sep], rest) == rest[0] + [sep] + Join([sep], rest[1..]);
      }
    }
  }

  /** A piece without separator, a separator and a tail split into the piece and the tail's pieces. */
  lemma {:induction false} SplitAfterPiece(a: string, sep: char, b: string)
    requires sep !in a
    ensures Split(a + [sep] + b, sep) == [a] + Split(b, sep)
    decreases |a|
  {
    var s := a + [sep] + b;
    if |a| == 0 {
      assert s[1..] == b;
    } else {
      assert s[1..] == a[1..] + [sep] + b;
      SplitAfterPiece(a[1..], sep, b);
      assert [a[0]] + a[1..] == a;
    }
  }

  /** A string without separator splits into itself alone. */
  lemma {:induction false} SplitNoSeparator(a: string, sep: char)
    requires sep !in a
    ensures Split(a, sep) == [a]
    decreases |a|
  {
    if |a| > 0 {
      SplitNoSeparator(a[1..], sep);
      assert [a[0]] + a[1..] == a;
    }
  }

  /** Splitting a join of separator-free pieces gives back the pieces. */
  lemma {:induction false} SplitJoin(parts: seq<string>, sep: char)
    requires |parts| >= 1
    requires forall i :: 0 <= i < |parts| ==> sep !in parts[i]
    ensures Split(Join([sep], parts), sep) == parts
    decreases |parts|
  {
    if |parts| == 1 {
      SplitNoSeparator(parts[0], sep);
    } else {
      SplitJoin(parts[1..], sep);
      SplitAfterPiece(parts[0], sep, Join([sep], parts[1..]));
      assert [parts[0]] + parts[1..] == parts;
    }
  }

  /** Joining two non-empty runs of pieces is joining each and gluing them with the separator. */
  lemma {:induction false} JoinAppend(sep: string, xs: seq<string>, ys: seq<string>)
    requires |xs| >= 1 && |ys| >= 1
    ensures Join(sep, xs + ys) == Join(sep, xs) + sep + Join(sep, ys)
    decreases |xs|
  {
    if |xs| > 1 {
      JoinAppend(sep, xs[1..], ys);
      assert (xs + ys)[1..] == xs[1..] + ys;
    } else {
      assert (xs + ys)[1..] == ys;
    }
  }

  // ---------------------------------------------------------------------------
  // String.IsNullOrWhiteSpace
  // ---------------------------------------------------------------------------

  /** The characters .NET's `Char.IsWhiteSpace` accepts, listed one by one. */
  const DotNetWhiteSpace: set<char> := {
    '\U{0009}', '\U{000A}', '\U{000B}', '\U{000C}', '\U{000D}', ' ', '\U{0085}', '\U{00A0}',
    '\U{1680}', '\U{2000}', '\U{2001}', '\U{2002}', '\U{2003}', '\U{2004}', '\U{2005}',
    '\U{2006}', '\U{2007}', '\U{2008}', '\U{2009}', '\U{200A}', '\U{2028}', '\U{2029}',
    '\U{202F}', '\U{205F}', '\U{3000}'
  }

  /** `Char.IsWhiteSpace`: the control characters 9 to 13 and 133, and the Unicode space, line and paragraph separators. */
  predicate IsWhiteSpace(c: char): (b: bool)
    ensures b <==> c in DotNetWhiteSpace
  {
    || ('\U{0009}' <= c <= '\U{000D}') || c == ' ' || c == '\U{0085}' || c == '\U{00A0}'
    || c == '\U{1680}' || ('\U{2000}' <= c <= '\U{200A}') || c == '\U{2028}' || c == '\U{2029}'
    || c == '\U{202F}' || c == '\U{205F}' || c == '\U{3000}'
  }

  /** A string is blank when every character is white space (the empty string included). */
  predicate IsNullOrWhiteSpace(s: string): (b: bool)
    ensures |s| == 0 ==> b
    ensures b <==> forall i :: 0 <= i < |s| ==> s[i] in DotNetWhiteSpace
  {
    forall i :: 0 <= i < |s| ==> IsWhiteSpace(s[i])
  }

  // ---------------------------------------------------------------------------
  // Locating and creating the file
  // ---------------------------------------------------------------------------

  /** The three paths CreateGSIFile computes. */
  datatype GsiLocation = GsiLocation(dota2Path: string, gsiFolder: string, gsiFile: string)

  /** Why no configuration file can be located. */
  datatype LocateError =
    | NegativeJoinCount  // fewer than three components: String.Join is given a negative count and throws
    | Dota2PathNotFound  // the install root is blank: the program prints a message and exits

  /**
   * The path computation of CreateGSIFile for the executable path `exePath`.
   */
  function LocateGsiFile(exePath: string): (r: Result<GsiLocation, LocateError>)
    ensures r == Err(NegativeJoinCount) <==> |Split(exePath, PathSeparator)| < 3
    ensures |Split(exePath, PathSeparator)| == 3 ==> r == Err(Dota2PathNotFound)
    ensures r == Err(Dota2PathNotFound) <==>
      var parts := Split(exePath, PathSeparator);
      |parts| >= 3 && IsNullOrWhiteSpace(Join([PathSeparator], parts[..|parts| - 3]))
    ensures r.Ok? ==> !IsNullOrWhiteSpace(r.value.dota2Path)
    ensures r.Ok? ==> r.value.gsiFolder == r.value.dota2Path + GsiFolderSuffix
    ensures r.Ok? ==> r.value.gsiFile == r.value.gsiFolder + GsiFileSuffix
  {
    var parts := Split(exePath, PathSeparator);
    if |parts| < 3 then Err(NegativeJoinCount)
    else
      var dota2Path := Join([PathSeparator], parts[..|parts| - 3]);
      if IsNullOrWhiteSpace(dota2Path) then Err(Dota2PathNotFound)
      else
        var gsiFolder := dota2Path + GsiFolderSuffix;
        Ok(GsiLocation(dota2Path, gsiFolder, gsiFolder + GsiFileSuffix))
  }

  /**
   * A located install root is the executable path with its last three
   * components cut off: its own components are the first n-3 of the
   * executable path's, and the executable path is the root, a separator and
   * the last three components.
   */
  lemma LocatedRootIsPrefix(exePath: string)
    requires LocateGsiFile(exePath).Ok?
    ensures var parts := Split(exePath, PathSeparator);
      var root := LocateGsiFile(exePath).value.dota2Path;
      && |parts| > 3
      && Split(root, PathSeparator) == parts[..|parts| - 3]
      && exePath == root + [PathSeparator] + Join([PathSeparator], parts[|parts| - 3..])
  {
    var parts := Split(exePath, PathSeparator);
    var n := |parts|;
    var root := LocateGsiFile(exePath).value.dota2Path;
    assert root == Join([PathSeparator], parts[..n - 3]);
    SplitJoin(parts[..n - 3], PathSeparator);
    JoinSplit(exePath, PathSeparator);
    JoinAppend([PathSeparator], parts[..n - 3], parts[n - 3..]);
    assert parts[..n - 3] + parts[n - 3..] == parts;
  }

  /** Splitting at a separator splits each side on its own. */
  lemma {:induction false} SplitConcat(x: string, sep: char, y: string)
    ensures Split(x + [sep] + y, sep) == Split(x, sep) + Split(y, sep)
    decreases |x|
  {
    var s := x + [sep] + y;
    if |x| == 0 {
      assert s[1..] == y;
    } else {
      assert s[1..] == x[1..] + [sep] + y;
      SplitConcat(x[1..], sep, y);
    }
  }

  /**
   * Every executable path of the form `root\a\b\c`, with `a`, `b`, `c` free of
   * separators and `root` not blank, is located, with `root` as install root.
   */
  lemma LocatesInstallRoot(root: string, a: string, b: string, c: string)
    requires PathSeparator !in a && PathSeparator !in b && PathSeparator !in c
    requires !IsNullOrWhiteSpace(root)
    ensures var sep := [PathSeparator];
      LocateGsiFile(root + sep + a + sep + b + sep + c)
        == Ok(GsiLocation(root, root + GsiFolderSuffix, root + GsiFolderSuffix + GsiFileSuffix))
  {
    var sep := [PathSeparator];
    var exePath := root + sep + a + sep + b + sep + c;
    assert exePath == root + sep + (a + sep + (b + sep + c));
    SplitConcat(root, PathSeparator, a + sep + (b + sep + c));
    SplitConcat(a, PathSeparator, b + sep + c);
    SplitConcat(b, PathSeparator, c);
    SplitNoSeparator(a, PathSeparator);
    SplitNoSeparator(b, PathSeparator);
    SplitNoSeparator(c, PathSeparator);
    var parts := Split(exePath, PathSeparator);
    var rootParts := Split(root, PathSeparator);
    assert parts == rootParts + [a, b, c];
    assert parts[..|parts| - 3] == rootParts;
    JoinSplit(root, PathSeparator);
  }

  /** The file system as the bootstrap sees it: file path to the file's lines. */
  type Files = map<string, seq<string>>

  /**
   * CreateGSIFile for the executable path `exePath`: locate the file and write
   * the settings into it unless a file already exists at that path.
   */
  function CreateGsiFile(exePath: string, files: Files): (r: Result<Files, LocateError>)
    ensures LocateGsiFile(exePath).Err? ==> r == Err(LocateGsiFile(exePath).error)
    ensures LocateGsiFile(exePath).Ok? ==> r.Ok?
    ensures r.Ok? ==>
      var f := LocateGsiFile(exePath).value.gsiFile;
      && r.value.Keys == files.Keys + {f}
      && (forall p :: p in files ==> r.value[p] == files[p])
      && (f !in files ==> r.value[f] == GsiSettings)
  {
    match LocateGsiFile(exePath)
    case Err(e) => Err(e)
    case Ok(loc) =>
      if loc.gsiFile in files then Ok(files)
      else Ok(files[loc.gsiFile := GsiSettings])
  }

  /** Running the bootstrap a second time changes nothing. */
  lemma CreateGsiFileIdempotent(exePath: string, files: Files)
    requires CreateGsiFile(exePath, files).Ok?
    ensures CreateGsiFile(exePath, CreateGsiFile(exePath, files).value) == CreateGsiFile(exePath, files)
  {
  }
}
