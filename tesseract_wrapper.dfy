/**
 * The package module piltesseract.tesseractwrapper: get_text_from_image turns
 * its arguments into a tesseract command, get_tesseract_pipe prefixes the
 * binary and picks the working directory and environment.
 *
 * What the outside world supplies is a parameter: `pathExists` stands for
 * os.path.exists, `join` for os.path.join, `decode` for the UTF-8 decoding
 * that ignores bad bytes (total: it never fails), and `stdout`/`stderr` for
 * the bytes the child process writes.
 */
module TesseractWrapper {
  import opened Text
  import opened TesseractCli

  /** TESSERACT_DIR, the default install directory: empty, so tesseract is looked up on PATH. */
  const TesseractDir := ""

  /** Characters rstrip removes from the decoded output. */
  const TrimChars: set<char> := {'\r', '\n', ' '}

  /** The positional input: "stdin" for an in-memory image, the path itself for a path. */
  function InputToken(image: ImageArg): string
    requires !image.Other?
  {
    if image.PilImage? then "stdin" else image.path
  }

  /** The command handed to get_tesseract_pipe: the argument segments joined by single spaces. */
  function Command(input: string, o: Options): (command: string)
    ensures Head(input, o.psm, o.lang) <= command
  {
    JoinWithSpaces(Arguments(Head(input, o.psm, o.lang), o))
  }

  /** get_tesseract_pipe, less the Popen call: the process it starts for a command. */
  function TesseractPipe(command: string, dir: string, join: (string, string) -> string): (p: Process)
    ensures SelectBinary(dir, join).binPath + " " + command == p.commandLine
    ensures p.cwd == SelectBinary(dir, join).cwd && p.env == SelectBinary(dir, join).env
    ensures dir == "" ==> p == Process(BinaryName + " " + command, None, None)
  {
    var setup := SelectBinary(dir, join);
    Process(setup.binPath + " " + command, setup.cwd, setup.env)
  }

  /**
   * get_text_from_image. A path that does not exist and an argument of an
   * unsupported type are rejected before any command is assembled; otherwise
   * the segments are collected in order, joined, handed to the pipe, and the
   * decoded output is returned with trailing CR, LF and spaces removed.
   * `sinkPresent` says whether the stderr argument is not None.
   */
  method GetTextFromImage(
    image: ImageArg, dir: string, sinkPresent: bool, o: Options,
    pathExists: string -> bool, join: (string, string) -> string,
    stdout: seq<byte>, stderr: seq<byte>, decode: seq<byte> -> string)
    returns (r: Result<Run>)
    ensures image.Other? ==>
      r == Failure(ValueError("image argument type not supported: " + image.typeName + "."))
    ensures image.TextPath? && !pathExists(image.path) ==>
      r == Failure(ValueError("Image file does not exist: " + image.path))
    ensures r.Success? <==> image.PilImage? || (image.TextPath? && pathExists(image.path))
    ensures r.Success? ==> r.value.streamsImage == image.PilImage?
    ensures r.Success? ==> r.value.process == TesseractPipe(Command(InputToken(image), o), dir, join)
    ensures r.Success? ==> r.value.errorForwarded == (|stderr| > 0 && sinkPresent)
    ensures r.Success? ==> r.value.text == RStrip(decode(stdout), TrimChars)
  {
    var imageInput: string;
    var useStdin: bool;
    if image.PilImage? {
      imageInput, useStdin := "stdin", true;
    } else if image.TextPath? {
      imageInput, useStdin := image.path, false;
      if !pathExists(imageInput) {
        return Failure(ValueError("Image file does not exist: " + imageInput));
      }
    } else {
      return Failure(ValueError("image argument type not supported: " + image.typeName + "."));
    }
    var head := Head(imageInput, o.psm, o.lang);
    var command := AssembleCommand(head, o);
    var pipe := TesseractPipe(command, dir, join);
    var errorForwarded := |stderr| > 0 && sinkPresent;
    var text := decode(stdout);
    text := RStrip(text, TrimChars);
    return Success(Run(pipe, useStdin, errorForwarded, text));
  }

  /**
   * The full command line starts with the binary, a space and the head for the
   * input, whatever psm and lang are: neither is checked.
   */
  lemma CommandLineStart(input: string, o: Options, dir: string, join: (string, string) -> string)
    ensures SelectBinary(dir, join).binPath + " " + Head(input, o.psm, o.lang)
      <= TesseractPipe(Command(input, o), dir, join).commandLine
  {
    var bin := SelectBinary(dir, join).binPath;
    var command := Command(input, o);
    var head := Head(input, o.psm, o.lang);
    var rest := command[|head|..];
    assert head <= head + rest && (head + rest)[|head|..] == rest;
    assert command == head + rest;
    assert bin + " " + head <= bin + " " + head + rest;
  }

  /** With the default keyword arguments and no install directory the command line is fixed. */
  lemma DefaultCommandLine(input: string, join: (string, string) -> string)
    ensures TesseractPipe(Command(input, DefaultOptions), TesseractDir, join)
      == Process("tesseract " + input + " stdout -psm 3 -l eng", None, None)
  {
    BareLineIff(Head(input, 3, "eng"), DefaultOptions);
    assert Decimal(3) == "3";
    var command := Command(input, DefaultOptions);
    assert command == input + " stdout -psm " + "3" + " -l " + "eng";
    assert command == input + " stdout -psm 3 -l eng";
    assert "tesseract" + " " + command == "tesseract " + input + " stdout -psm 3 -l eng";
  }
}
