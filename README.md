# PILtesseract command-line model

PILtesseract turns an image into text by running the Tesseract OCR executable.
The only decisions it makes are the ones this project models:

- which positional input it gives tesseract: the literal `stdin` for an in-memory PIL image, or the path itself for an existing path;
- how it assembles the argument string: the head `<input> stdout -psm <psm> -l <lang>`, then the optional `--tessdata-dir"…"`, `--user-words"…"` and `--user-patterns"…"` segments, then one `-c key=value` per config variable, then the optional config name, all joined with single spaces;
- which binary, working directory and environment the child process gets;
- how the decoded output is trimmed.

Two modules of the repository are modelled:

- `piltesseract/tesseractwrapper.py` is the package module. It is modelled in `tesseract_wrapper.dfy`, module `TesseractWrapper`.
- `piltesseract.py` is the older single-file module. It is modelled in `piltesseract.dfy`, module `Piltesseract`. Its import-time globals (`tesseract_dir_path`, `tesseract_stderr`, `_tesseract_bin_path`, `_tess_cwd`, `_tess_env`) are the fields of class `PiltesseractModule`. Its constructor performs the assignments made at import.

What both modules share is in `tesseract_cli.dfy`, module `TesseractCli`:

- the keyword arguments, as datatype `Options`;
- the segment layout, as function `Arguments`;
- the list-building loop, as method `AssembleCommand`;
- the binary selection, as function `SelectBinary`.

The string helpers are in `text.dfy`, module `Text`:

- `Decimal` is Python's `str()` of an int, with its inverse `ParseDecimal`;
- `JoinWithSpaces` is `' '.join`;
- `RStrip` is `str.rstrip`.

What the outside world supplies is a parameter:

- `pathExists` stands for `os.path.exists`;
- `join` stands for `os.path.join`;
- `decode` stands for the UTF-8 decoding with `errors="ignore"`. It is a total function, so decoding never fails;
- `stdout` and `stderr` are the bytes the child process writes;
- `sinkPresent` and `stderrSinkPresent` say whether the stderr sink is not None.

A successful call yields a `Run`. It records:

- the `Process` that would be started: its whole command line, cwd and env;
- whether the image is streamed on stdin;
- whether stderr text is written to the sink;
- the returned text.

A rejected call yields `Failure(ValueError(message))`. The message is the source's own. A rejected call carries no process: the model builds no command and opens no pipe for it.

The quirk of the path flags is kept as written: the quoted path follows the flag with no space (`--tessdata-dir"/x"`).

A text path is accepted whenever `os.path.exists` accepts it (`piltesseract/tesseractwrapper.py:85-90`); the model puts no further condition on the path.

The repository also ships the older `piltesseract.py`, modelled here as well.

## Model

| member | source | states |
|---|---|---|
| Text.Decimal | piltesseract/tesseractwrapper.py:94 | psm is written as a non-empty text; it starts with '-' exactly when psm is negative; the rest is decimal digits with no leading zero unless psm is 0; it holds no space |
| Text.DecimalRoundTrip | piltesseract/tesseractwrapper.py:94 | reading the decimal text of psm back gives psm: the psm value is passed through unchanged |
| Text.JoinWithSpaces | piltesseract/tesseractwrapper.py:105 | the joined text starts with the first segment, and is longer than the first segment when there are more segments |
| Text.JoinAppend | piltesseract/tesseractwrapper.py:105 | appending a segment to a non-empty list appends one space and that segment to the joined text |
| Text.JoinPrefixFirst | piltesseract.py:75 | text glued to the front of the first segment comes first in the joined text |
| Text.RStrip | piltesseract/tesseractwrapper.py:115 | the result is a prefix of the input; everything removed is in the strip set; the result does not end in a character of the set; input made only of set characters gives "" |
| Text.RStripUnique | piltesseract/tesseractwrapper.py:115 | any text with those three properties is the rstrip result, so the properties define it |
| Text.RStripIdempotent | piltesseract/tesseractwrapper.py:115 | stripping again changes nothing |
| TesseractCli.HeadKeepsPsm | piltesseract/tesseractwrapper.py:94 | the head `<input> stdout -psm <psm> -l <lang>` is different for different psm values with the same input and language, so psm reaches the command unchanged |
| TesseractCli.ConfigSegments | piltesseract/tesseractwrapper.py:101-102 | exactly one "-c name=value" segment per config variable, in the given order |
| TesseractCli.AssembleCommand | piltesseract/tesseractwrapper.py:94-105 | the list built by appending in place, joined by spaces, equals the segment layout `Arguments` joined by spaces |
| TesseractCli.PathFlagsInOrder | piltesseract/tesseractwrapper.py:95-100 | the head is first; the number of path flags is the number of given paths; tessdata, user-words and user-patterns follow in that order, each as flag, quote, path, quote |
| TesseractCli.PathFlagPresentIff | piltesseract/tesseractwrapper.py:95-100 | a segment starting with a given flag and a quote is among the path flags if and only if that flag's argument is not None |
| TesseractCli.ConfigVariablesInOrder | piltesseract/tesseractwrapper.py:101-102 | the segment count is 1 + path flags + variables + config name; variable i sits right after the path flags at offset i |
| TesseractCli.ConfigNameLast | piltesseract/tesseractwrapper.py:103-104 | a given config name is the last segment; with no config name the config variables end the list |
| TesseractCli.ConfigNameEndsLine | piltesseract/tesseractwrapper.py:103-105 | a given config name ends the joined line, preceded by a single space |
| TesseractCli.BareLineIff | piltesseract/tesseractwrapper.py:94-105 | the line is just the head if and only if no path, no config variable and no config name is given |
| TesseractCli.SelectBinary | piltesseract/tesseractwrapper.py:136-143 | cwd is set exactly when the directory is non-empty; env is set together with cwd; with both set, cwd is the directory, env is {'path': directory} and the binary is join(directory, "tesseract"); otherwise the binary is bare "tesseract" |
| TesseractWrapper.Command | piltesseract/tesseractwrapper.py:94-105 | the command starts with the whole head for the input token, psm and language |
| TesseractWrapper.TesseractPipe | piltesseract/tesseractwrapper.py:136-144 | the command line is the selected binary, a space, then the command; cwd and env are the selected ones; an empty directory gives "tesseract <command>" with no cwd or env |
| TesseractWrapper.GetTextFromImage | piltesseract/tesseractwrapper.py:82-116 | a non-text, non-Image argument and a missing path give the source's ValueError messages; it succeeds exactly for an Image or an existing path; only an Image is streamed; the process is the pipe for the command with input "stdin" or the path; stderr is forwarded exactly when non-empty with a sink; the text is the decoded output with trailing CR, LF and spaces stripped |
| TesseractWrapper.CommandLineStart | piltesseract/tesseractwrapper.py:94 | for any psm and language, the command line begins with the binary, a space and the head `<input> stdout -psm <psm> -l <lang>` |
| TesseractWrapper.DefaultCommandLine | piltesseract/tesseractwrapper.py:24-27 | with default arguments and TESSERACT_DIR empty, the process is "tesseract <input> stdout -psm 3 -l eng" with no cwd and no env |
| Piltesseract.PiltesseractModule.constructor | piltesseract.py:29-41 | after import, the binary, cwd and env are those `SelectBinary` gives for tesseract_dir_path |
| Piltesseract.PiltesseractModule.GetTextFromImage | piltesseract.py:70-101 | it succeeds exactly for an Image; anything else, a path string included, gives the ValueError message; the image is always streamed; the process uses the module's binary, cwd and env with the binary inside the first segment; stderr is forwarded exactly when non-empty with a sink; the text is the decoded output untrimmed |
| Piltesseract.AgreesWithPackage | piltesseract.py:73-86 | for an Image and the same install directory, the legacy module starts exactly the process the package module starts; putting the binary inside the first segment `<bin> stdin stdout -psm <psm> -l <lang>` gives the same line as putting it before the joined command |

## Left out

- Process I/O is not modelled. This covers `subprocess.Popen`, the three pipes, writing and closing stdin, and reading stdout and stderr in order. Without a model of the OS there is nothing to prove about it. Their bytes are parameters, and a `Run` records what would be started. A `Success` therefore means only that the arguments were accepted, and it names the process that would be started. Failures to spawn the process (`subprocess.Popen`), to encode the image (`image.save`) or to write to the stderr sink are not modelled.
- The exit code of tesseract is not modelled; the source never inspects it.
- The Windows `STARTUPINFO` flags that hide the console window are left out. They are platform glue.
- BMP encoding through PIL's `image.save(..., format='bmp')` is left out. It is a foreign library call; `streamsImage` records only that the image goes to stdin.
- UTF-8 decoding with `errors="ignore"` is the parameter `decode`. It is Python's codec; the model assumes only that it is total.
- `os.path.exists` and `os.path.join` are the parameters `pathExists` and `join`. They are operating-system calls.
- Writing stderr to the sink is modelled only as the flag `errorForwarded`. The text written and the `six.text_type` conversion are I/O.
- Config variable values are taken as the text `str()` makes of them, since `format` renders any value that way. Keyword arguments are given as an ordered sequence of (name, value) pairs standing for the dict's iteration order.
- Type dispatch is reduced to three cases: a PIL Image, a text string, and anything else by the repr of its type. For the legacy module, a text string's type repr is taken to be Python 2's `<type 'unicode'>`.
- Piltesseract.PiltesseractModule.GetTextFromImage: the binary, cwd and env are the fields computed at import. Reassigning `tesseract_dir_path` later leaves them as they were, as in the source, and the fields do not enforce that they match.
- TesseractCli.ConfigNameLast: "the config name appears nowhere else" is stated as positions, not as text. At the string level it does not hold, since a config name may equal another segment's text.
- The tests depend on the tesseract binary and on difflib's similarity ratio. They are not modelled.
- `setup.py` is packaging. `piltesseract/__init__.py` only re-exports `get_text_from_image`. Neither is part of this model.
