/**
 * What both wrapper modules share: the call arguments, the tesseract argument
 * segments they assemble, and the choice of binary, working directory and
 * environment for the child process.
 */
module TesseractCli {
  import opened Text

  datatype Option<+T> = None | Some(value: T)

  /** Both modules report bad arguments with Python's ValueError and a message. */
  datatype Error = ValueError(message: string)

  datatype Result<+T> = Success(value: T) | Failure(error: Error)

  newtype byte = b: int | 0 <= b < 256

  /**
   * The image argument: a PIL Image, a text string (a path), or a value of any
   * other type, known by the repr of its type.
   */
  datatype ImageArg = PilImage | TextPath(path: string) | Other(typeName: string)

  /**
   * The keyword arguments of get_text_from_image common to both modules. A
   * config variable is a (name, value) pair in keyword order, the value given
   * as the text str() makes of it.
   */
  datatype Options = Options(
    psm: int,
    lang: string,
    tessdataDir: Option<string>,
    userWords: Option<string>,
    userPatterns: Option<string>,
    configName: Option<string>,
    configVariables: seq<(string, string)>)

  /** The defaults in the Python signatures: psm=3, lang="eng", everything else None. */
  const DefaultOptions := Options(3, "eng", None, None, None, None, [])

  /** The positional part: input, output "stdout", page segmentation mode and language. */
  function Head(input: string, psm: int, lang: string): string {
    input + " stdout -psm " + Decimal(psm) + " -l " + lang
  }

  /**
   * Different page segmentation modes give different heads, whatever the
   * input and language: psm reaches the command as it is.
   */
  lemma HeadKeepsPsm(input: string, lang: string, p: int, q: int)
    requires Head(input, p, lang) == Head(input, q, lang)
    ensures p == q
  {
    var pre := input + " stdout -psm ";
    CancelRight(pre + Decimal(p) + " -l ", pre + Decimal(q) + " -l ", lang);
    CancelRight(pre + Decimal(p), pre + Decimal(q), " -l ");
    CancelLeft(pre, Decimal(p), Decimal(q));
    DecimalRoundTrip(p);
    DecimalRoundTrip(q);
  }

  lemma CancelLeft(a: string, x: string, y: string)
    requires a + x == a + y
    ensures x == y
  {
    assert x == (a + x)[|a|..];
  }

  lemma CancelRight(x: string, y: string, b: string)
    requires x + b == y + b
    ensures x == y
  {
    assert x == (x + b)[..|x|];
  }

  /** A path flag with its quoted path attached directly, with no space in between. */
  function PathFlag(flag: string, path: Option<string>): seq<string> {
    if path.Some? then [flag + "\"" + path.value + "\""] else []
  }

  const TessdataFlag := "--tessdata-dir"
  const UserWordsFlag := "--user-words"
  const UserPatternsFlag := "--user-patterns"

  /** The optional path flags, in the fixed order tessdata, user words, user patterns. */
  function PathFlags(o: Options): seq<string> {
    PathFlag(TessdataFlag, o.tessdataDir)
      + PathFlag(UserWordsFlag, o.userWords)
      + PathFlag(UserPatternsFlag, o.userPatterns)
  }

  function ConfigSegment(variable: (string, string)): string {
    "-c " + variable.0 + "=" + variable.1
  }

  /** One "-c name=value" segment per config variable, in the given order. */
  function ConfigSegments(variables: seq<(string, string)>): (segs: seq<string>)
    ensures |segs| == |variables|
    ensures forall i :: 0 <= i < |variables| ==> segs[i] == ConfigSegment(variables[i])
  {
    if variables == [] then []
    else ConfigSegments(variables[..|variables| - 1]) + [ConfigSegment(variables[|variables| - 1])]
  }

  function NameSegment(configName: Option<string>): seq<string> {
    if configName.Some? then [configName.value] else []
  }

  /** Every segment after the first: path flags, then config variables, then the config name. */
  function OptionalSegments(o: Options): seq<string> {
    PathFlags(o) + ConfigSegments(o.configVariables) + NameSegment(o.configName)
  }

  /** The segments joined by single spaces to form the command. */
  function Arguments(head: string, o: Options): seq<string> {
    [head] + OptionalSegments(o)
  }

  /**
   * The list both modules build in place: the head, each path flag that is
   * given, one segment per config variable, the config name if given; then
   * joined with single spaces.
   */
  method AssembleCommand(head: string, o: Options) returns (command: string)
    ensures command == JoinWithSpaces(Arguments(head, o))
  {
    var commands := [head];
    if o.tessdataDir.Some? {
      commands := commands + [TessdataFlag + "\"" + o.tessdataDir.value + "\""];
    }
    if o.userWords.Some? {
      commands := commands + [UserWordsFlag + "\"" + o.userWords.value + "\""];
    }
    if o.userPatterns.Some? {
      commands := commands + [UserPatternsFlag + "\"" + o.userPatterns.value + "\""];
    }
    var variables := o.configVariables;
    assert commands == [head] + PathFlags(o) + ConfigSegments(variables[..0]);
    for i := 0 to |variables|
      invariant commands == [head] + PathFlags(o) + ConfigSegments(variables[..i])
    {
      assert variables[..i + 1][..i] == variables[..i];
      commands := commands + ["-c " + variables[i].0 + "=" + variables[i].1];
    }
    assert variables[..|variables|] == variables;
    ghost var fixedPart := commands;
    if o.configName.Some? {
      commands := commands + [o.configName.value];
    }
    assert commands == fixedPart + NameSegment(o.configName);
    assert Arguments(head, o)
      == [head] + PathFlags(o) + ConfigSegments(o.configVariables) + NameSegment(o.configName);
    command := JoinWithSpaces(commands);
  }

  function Present<T>(x: Option<T>): nat {
    if x.Some? then 1 else 0
  }

  /** Whether one of the path-flag slots holds a segment beginning with flag and a quote. */
  predicate HasPathFlag(o: Options, flag: string) {
    exists i :: 0 <= i < |PathFlags(o)| && flag + "\"" <= PathFlags(o)[i]
  }

  /**
   * Layout of the segments: the head first, then the path flags that are given
   * in the fixed order, each written flag + quote + path + quote.
   */
  lemma PathFlagsInOrder(head: string, o: Options)
    ensures |PathFlags(o)| == Present(o.tessdataDir) + Present(o.userWords) + Present(o.userPatterns)
    ensures Arguments(head, o)[0] == head
    ensures o.tessdataDir.Some? ==>
      Arguments(head, o)[1] == TessdataFlag + "\"" + o.tessdataDir.value + "\""
    ensures o.userWords.Some? ==>
      Arguments(head, o)[1 + Present(o.tessdataDir)] == UserWordsFlag + "\"" + o.userWords.value + "\""
    ensures o.userPatterns.Some? ==>
      Arguments(head, o)[1 + Present(o.tessdataDir) + Present(o.userWords)]
        == UserPatternsFlag + "\"" + o.userPatterns.value + "\""
  {
  }

  /** A flag's segment is among the path flags exactly when its argument is given. */
  lemma PathFlagPresentIff(o: Options)
    ensures HasPathFlag(o, TessdataFlag) <==> o.tessdataDir.Some?
    ensures HasPathFlag(o, UserWordsFlag) <==> o.userWords.Some?
    ensures HasPathFlag(o, UserPatternsFlag) <==> o.userPatterns.Some?
  {
    var a, b, c := PathFlag(TessdataFlag, o.tessdataDir), PathFlag(UserWordsFlag, o.userWords),
      PathFlag(UserPatternsFlag, o.userPatterns);
    var flags := PathFlags(o);
    var t, w, p := TessdataFlag + "\"", UserWordsFlag + "\"", UserPatternsFlag + "\"";
    assert flags == a + b + c;
    // The quoted flags differ at index 2 (tessdata against the others) or 7 (words against patterns).
    assert t[2] != w[2] && t[2] != p[2] && w[7] != p[7];
    forall i | 0 <= i < |flags|
      ensures t <= flags[i] ==> o.tessdataDir.Some?
      ensures w <= flags[i] ==> o.userWords.Some?
      ensures p <= flags[i] ==> o.userPatterns.Some?
    {
      var s := flags[i];
      if i < |a| {
        assert t <= s;
      } else if i < |a| + |b| {
        assert s == b[0] && w <= s;
      } else {
        assert s == c[0] && p <= s;
      }
    }
    if o.tessdataDir.Some? {
      assert t <= flags[0];
    }
    if o.userWords.Some? {
      assert flags[|a|] == b[0];
      assert w <= flags[|a|];
    }
    if o.userPatterns.Some? {
      assert flags[|a| + |b|] == c[0];
      assert p <= flags[|a| + |b|];
    }
  }

  /** The config variables follow the path flags, one segment each, in the given order. */
  lemma ConfigVariablesInOrder(head: string, o: Options)
    ensures |Arguments(head, o)|
      == 1 + |PathFlags(o)| + |o.configVariables| + Present(o.configName)
    ensures forall i :: 0 <= i < |o.configVariables| ==>
      Arguments(head, o)[1 + |PathFlags(o)| + i] == ConfigSegment(o.configVariables[i])
  {
  }

  /** A given config name is the last segment; without one the last segment is something else. */
  lemma ConfigNameLast(head: string, o: Options)
    ensures o.configName.Some? ==> Arguments(head, o)[|Arguments(head, o)| - 1] == o.configName.value
    ensures o.configName.None? ==>
      Arguments(head, o) == [head] + PathFlags(o) + ConfigSegments(o.configVariables)
  {
  }

  /** A given config name ends the joined line, after a single space. */
  lemma ConfigNameEndsLine(head: string, o: Options)
    requires o.configName.Some?
    ensures var line, n := JoinWithSpaces(Arguments(head, o)), o.configName.value;
      |line| > |n| && line[|line| - |n| - 1..] == " " + n
  {
    var before := [head] + PathFlags(o) + ConfigSegments(o.configVariables);
    var n := o.configName.value;
    assert Arguments(head, o) == before + [n];
    JoinAppend(before, n);
    var prefix, suffix := JoinWithSpaces(before), " " + n;
    assert (prefix + suffix)[|prefix + suffix| - |suffix|..] == suffix;
  }

  /** The line is the bare head exactly when no optional argument and no config variable is given. */
  lemma BareLineIff(head: string, o: Options)
    ensures JoinWithSpaces(Arguments(head, o)) == head <==>
      o.tessdataDir.None? && o.userWords.None? && o.userPatterns.None?
      && o.configName.None? && o.configVariables == []
  {
  }

  /** How the child process is located and started. */
  datatype Setup = Setup(binPath: string, cwd: Option<string>, env: Option<map<string, string>>)

  const BinaryName := "tesseract"

  /**
   * The binary, working directory and environment for an install directory:
   * the bare name when the directory is empty, otherwise the joined path with
   * cwd the directory and the environment {'path': directory}.
   */
  function SelectBinary(dir: string, join: (string, string) -> string): (s: Setup)
    ensures s.cwd.Some? <==> dir != ""
    ensures s.env.Some? <==> s.cwd.Some?
    ensures s.cwd.None? ==> s.binPath == BinaryName
    ensures s.cwd.Some? ==>
      s.cwd.value == dir && s.env.value == map["path" := dir] && s.binPath == join(dir, BinaryName)
  {
    if dir == "" then Setup(BinaryName, None, None)
    else Setup(join(dir, BinaryName), Some(dir), Some(map["path" := dir]))
  }

  /** A started child: the whole command line, its working directory and environment. */
  datatype Process = Process(commandLine: string, cwd: Option<string>, env: Option<map<string, string>>)

  /**
   * What one successful call does: the process started, whether the image is
   * streamed to its stdin, whether stderr text is written to the sink, and the
   * text returned.
   */
  datatype Run = Run(process: Process, streamsImage: bool, errorForwarded: bool, text: string)
}
