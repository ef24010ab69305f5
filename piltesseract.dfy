/**
 * The older single-file module piltesseract.py. Its install directory, stderr
 * sink and the binary, working directory and environment derived from the
 * directory are module globals set once at import; an object of class
 * PiltesseractModule stands for the imported module and its fields for those
 * globals. It accepts only in-memory images, puts the binary at the front of
 * the first segment and returns the decoded output without trimming it.
 */
module Piltesseract {
  import opened Text
  import opened TesseractCli
  import TesseractWrapper

  /** The repr Python 2 gives the type of a text string, the only non-Image argument with a fixed type. */
  const UnicodeTypeName := "<type 'unicode'>"

  function TypeRepr(image: ImageArg): string
    requires !image.PilImage?
  {
    if image.TextPath? then UnicodeTypeName else image.typeName
  }

  /** The first segment: the binary, a space, then the head for the literal input "stdin". */
  function FirstSegment(binPath: string, o: Options): string {
    binPath + " " + Head("stdin", o.psm, o.lang)
  }

  /** The whole command line this module hands to Popen. */
  function LegacyCommandLine(binPath: string, o: Options): string {
    JoinWithSpaces(Arguments(FirstSegment(binPath, o), o))
  }

  class PiltesseractModule {
    /** tesseract_dir_path: empty unless tesseract is not on PATH. */
    var tesseractDirPath: string
    /** Whether tesseract_stderr is not None (it defaults to sys.stdout). */
    var stderrSinkPresent: bool
    var tesseractBinPath: string
    var tessCwd: Option<string>
    var tessEnv: Option<map<string, string>>

    /**
     * Import: the globals get their defaults, and when the install directory is
     * non-empty the binary, cwd and environment are reassigned from it.
     */
    constructor (dirPath: string, sinkPresent: bool, join: (string, string) -> string)
      ensures tesseractDirPath == dirPath && stderrSinkPresent == sinkPresent
      ensures Setup(tesseractBinPath, tessCwd, tessEnv) == SelectBinary(dirPath, join)
    {
      tesseractDirPath := dirPath;
      stderrSinkPresent := sinkPresent;
      tesseractBinPath := BinaryName;
      tessCwd := None;
      tessEnv := None;
      if dirPath != "" {
        tesseractBinPath := join(dirPath, BinaryName);
        tessCwd := Some(dirPath);
        tessEnv := Some(map["path" := dirPath]);
      }
    }

    /**
     * get_text_from_image: anything but an Image is a ValueError, a path string
     * included. Otherwise the image is streamed to the process the module's
     * globals describe and the decoded output is returned as it is.
     */
    method GetTextFromImage(image: ImageArg, o: Options, stdout: seq<byte>, stderr: seq<byte>,
                            decode: seq<byte> -> string)
      returns (r: Result<Run>)
      ensures r.Success? <==> image.PilImage?
      ensures !image.PilImage? ==>
        r == Failure(ValueError("image must be of type Image, not " + TypeRepr(image) + "."))
      ensures r.Success? ==> r.value.streamsImage
      ensures r.Success? ==>
        r.value.process == Process(LegacyCommandLine(tesseractBinPath, o), tessCwd, tessEnv)
      ensures r.Success? ==> r.value.errorForwarded == (|stderr| > 0 && stderrSinkPresent)
      ensures r.Success? ==> r.value.text == decode(stdout)
    {
      if !image.PilImage? {
        return Failure(ValueError("image must be of type Image, not " + TypeRepr(image) + "."));
      }
      var binPath := tesseractBinPath;
      var imageInput := "stdin";
      var first := binPath + " " + Head(imageInput, o.psm, o.lang);
      var command := AssembleCommand(first, o);
      var pipe := Process(command, tessCwd, tessEnv);
      var errorForwarded := |stderr| > 0 && stderrSinkPresent;
      var text := decode(stdout);
      return Success(Run(pipe, true, errorForwarded, text));
    }
  }

  /**
   * For an Image, this module starts the same process as the package module
   * given the same install directory: prefixing the binary into the first
   * segment and prefixing it to the joined command give the same line.
   */
  lemma AgreesWithPackage(dir: string, join: (string, string) -> string, o: Options)
    ensures var s := SelectBinary(dir, join);
      Process(LegacyCommandLine(s.binPath, o), s.cwd, s.env)
        == TesseractWrapper.TesseractPipe(TesseractWrapper.Command("stdin", o), dir, join)
  {
    var bin := SelectBinary(dir, join).binPath;
    JoinPrefixFirst(bin + " ", Head("stdin", o.psm, o.lang), OptionalSegments(o));
  }
}
