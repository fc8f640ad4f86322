/**
 * PersoSim.parseArgs: splitting one command line into a command and its parameter string.
 */
module CommandLine {
  import opened JavaString

  /**
   * parseArgs as written. The position of the first space is searched in the trimmed,
   * lower-cased copy of `args`, but both parts are cut from `args` itself.
   * The result has no element for the empty string, two elements when the trimmed
   * copy holds a space, and otherwise the untouched input as its only element.
   */
  function ParseArgs(args: string): (r: seq<string>)
    ensures |r| <= 2
    ensures r == [] <==> args == ""
  {
    var argsInput := ToLowerCase(Trim(args));
    var index := IndexOf(argsInput, ' ');
    if index >= 0 then
      [args[..index], Trim(args[index..])]
    else if |args| > 0 then
      [args]
    else
      []
  }

  /** Only the zero-length string yields no element: a blank line is returned whole. */
  lemma ParseArgsBlank(args: string)
    requires args != "" && AllTrimmable(args)
    ensures ParseArgs(args) == [args]
  {
  }

  /** Without a space the input comes back unchanged (case included) as the single element. */
  lemma ParseArgsNoSpace(args: string)
    requires ' ' !in args
    ensures ParseArgs(args) == if args == "" then [] else [args]
  {
    var t := Trim(args);
    assert ' ' !in t by {
      forall i | 0 <= i < |t| ensures t[i] != ' ' {
        assert t[i] == args[TrimStart(args) + i];
      }
    }
    assert IndexOf(ToLowerCase(t), ' ') < 0 by {
      IndexOfSpaceLowerCase(t);
    }
  }

  /** A suffix of a trimmed string is not blank: it ends with the string's last character. */
  lemma TrimmedSuffixNotBlank(s: string, j: nat)
    requires IsTrimmed(s) && j < |s|
    ensures Trim(s[j..]) != ""
  {
    var x := s[j..];
    assert x[|x| - 1] == s[|s| - 1];
    assert !AllTrimmable(x);
  }

  /**
   * On a trimmed line holding a space, parseArgs returns the text before the first space,
   * with its case kept, and the rest of the line trimmed; both parts are non-empty.
   */
  lemma ParseArgsTrimmedSplit(args: string)
    requires IsTrimmed(args) && ' ' in args
    ensures var i := IndexOf(args, ' ');
      var r := ParseArgs(args);
      0 < i < |args| - 1 && |r| == 2 &&
      r[0] == args[..i] && ' ' !in r[0] && r[0] != "" &&
      r[1] == Trim(args[i..]) && r[1] != "" && IsTrimmed(r[1])
  {
    var i := IndexOf(args, ' ');
    TrimIdentity(args);
    IndexOfSpaceLowerCase(args);
    assert ParseArgs(args) == [args[..i], Trim(args[i..])];
    TrimmedSuffixNotBlank(args, i);
  }

  /**
   * The split loses nothing but whitespace: a trimmed line holding a space is its command,
   * a run of whitespace starting with the first space, and its parameter string.
   */
  lemma ParseArgsTrimmedLosesOnlyWhitespace(args: string)
    requires IsTrimmed(args) && ' ' in args
    ensures var i := IndexOf(args, ' ');
      var r := ParseArgs(args);
      |r| == 2 && i + |r[1]| <= |args| &&
      args == r[0] + args[i..|args| - |r[1]|] + r[1] && AllTrimmable(args[i..|args| - |r[1]|])
  {
    ParseArgsTrimmedSplit(args);
    TrimmedTailSplit(args, IndexOf(args, ' '));
  }

  /** A trimmed string is its prefix up to `i`, blanks, and the trim of its suffix from `i`. */
  lemma TrimmedTailSplit(s: string, i: nat)
    requires IsTrimmed(s) && i < |s|
    ensures var t := Trim(s[i..]);
      i + |t| <= |s| &&
      s == s[..i] + s[i..|s| - |t|] + t && AllTrimmable(s[i..|s| - |t|])
  {
    var t := Trim(s[i..]);
    TrimmedTail(s, i);
    var n := |s| - |t|;
    assert s == s[..i] + s[i..n] + s[n..];
  }

  /** The trim of a suffix of a trimmed string is a suffix of it, preceded only by blanks. */
  lemma TrimmedTail(s: string, i: nat)
    requires IsTrimmed(s) && i < |s|
    ensures var t := Trim(s[i..]);
      i + |t| <= |s| && t == s[|s| - |t|..] && AllTrimmable(s[i..|s| - |t|])
  {
    var rest := s[i..];
    assert rest[|rest| - 1] == s[|s| - 1];
    TrimKeepsEnd(rest);
    var t := Trim(rest);
    assert rest[|rest| - |t|..] == s[|s| - |t|..];
    assert rest[..|rest| - |t|] == s[i..|s| - |t|];
  }

  /**
   * The split the documentation describes: the trimmed line cut at its first space,
   * with the rest trimmed. The doc's "white space" is read as the space character U+0020,
   * the one the code searches for, so a tab does not split. On a trimmed line this is
   * what parseArgs computes.
   */
  function SplitCommandLine(line: string): (r: seq<string>)
    ensures |r| <= 2
    ensures r == [] <==> AllTrimmable(line)
  {
    var t := Trim(line);
    var index := IndexOf(t, ' ');
    if index >= 0 then
      [t[..index], Trim(t[index..])]
    else if |t| > 0 then
      [t]
    else
      []
  }

  /**
   * The parts of the intended split: a non-empty command that starts with a visible
   * character and holds no space, and a non-empty trimmed parameter string.
   */
  lemma SplitCommandLineParts(line: string)
    ensures var r := SplitCommandLine(line);
      (|r| > 0 ==> r[0] != "" && !IsTrimmable(r[0][0]) && ' ' !in r[0]) &&
      (|r| == 2 ==> r[1] != "" && IsTrimmed(r[1]))
  {
    ShellSplitAgrees(line);
    TrimmedParts(Trim(line));
  }

  /** The parts parseArgs returns for a trimmed line. */
  lemma TrimmedParts(t: string)
    requires IsTrimmed(t)
    ensures var r := ParseArgs(t);
      (|r| > 0 ==> r[0] != "" && !IsTrimmable(r[0][0]) && ' ' !in r[0]) &&
      (|r| == 2 ==> r[1] != "" && IsTrimmed(r[1]))
  {
    if ' ' in t {
      ParseArgsTrimmedSplit(t);
    } else {
      ParseArgsNoSpace(t);
    }
  }

  /** The split depends on the trimmed line only. */
  lemma SplitCommandLineTrimInvariant(line: string)
    ensures SplitCommandLine(Trim(line)) == SplitCommandLine(line)
  {
    TrimIdempotent(line);
  }

  /** The shell trims each line before parseArgs; on such a line parseArgs is the intended split. */
  lemma ShellSplitAgrees(line: string)
    ensures ParseArgs(Trim(line)) == SplitCommandLine(line)
  {
    var t := Trim(line);
    TrimIdempotent(line);
    IndexOfSpaceLowerCase(t);
  }

  /**
   * With leading whitespace before a line that holds a space, parseArgs cuts the command
   * at the wrong position: its first element starts with the whitespace and so differs
   * from the command the documentation describes. The same cause, deciding on the trimmed
   * copy but returning the untrimmed input, keeps trailing whitespace when there is no inner
   * space ("a " stays ["a "]) and returns a blank line whole (ParseArgsBlank).
   */
  lemma ParseArgsMiscutsLeadingWhitespace(line: string)
    requires line != "" && IsTrimmable(line[0]) && ' ' in Trim(line)
    ensures ParseArgs(line)[0] != SplitCommandLine(line)[0]
  {
    var t := Trim(line);
    IndexOfSpaceLowerCase(t);
    var i := IndexOf(t, ' ');
    assert i > 0;
    assert ParseArgs(line)[0] == line[..i];
    assert ParseArgs(line)[0][0] == line[0];
  }

  /** The smallest such line: " a b" is cut into " " and "a b" instead of "a" and "b". */
  lemma ParseArgsLeadingSpaceExample()
    ensures ParseArgs(" a b") == [" ", "a b"]
    ensures SplitCommandLine(" a b") == ["a", "b"]
  {
    assert TrimStart(" a b") == 1;
    assert Trim(" a b") == "a b";
    IndexOfSpaceLowerCase("a b");
    assert IndexOf("a b", ' ') == 1 by {
      assert "a b"[1..] == " b";
    }
    assert " a b"[1..] == "a b" && " a b"[..1] == " ";
    TrimIdentity("a b");
    assert ParseArgs(" a b") == [" a b"[..1], Trim(" a b"[1..])];
    assert "a b"[..1] == "a";
    assert Trim("a b"[1..]) == "b" by {
      assert "a b"[1..] == " b";
      assert TrimStart(" b") == 1;
    }
  }
}
