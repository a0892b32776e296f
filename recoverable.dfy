/**
 * Recoverable errors: propagating `Result`s from file reads, and `?` on an
 * `Option`. Opening and reading a file are I/O; their outcomes are taken as
 * inputs.
 */
module Recoverable {
  import opened Std
  import opened Text

  /** An `io::Error`, kept abstract: the model only passes it along. */
  datatype IoError = IoError(kind: string)

  /** An open file, given by what reading it to the end would yield. */
  datatype File = File(read: Result<string, IoError>)

  /**
   * What reading a username from a file gives: the open error, or else the
   * read error, or else the contents trimmed. Errors pass through unchanged.
   */
  function UsernameFrom(openResult: Result<File, IoError>): (r: Result<string, IoError>)
    ensures openResult.Err? ==> r == Err(openResult.error)
    ensures openResult.Ok? && openResult.value.read.Err? ==> r == Err(openResult.value.read.error)
    ensures openResult.Ok? && openResult.value.read.Ok? ==> r == Ok(Trim(openResult.value.read.value))
  {
    match openResult
    case Err(e) => Err(e)
    case Ok(file) =>
      match file.read
      case Err(e) => Err(e)
      case Ok(contents) => Ok(Trim(contents))
  }

  /**
   * `read_to_string(&mut buf)`: appends the rest of the file to `buf`, or
   * fails with the read error. On failure the model leaves `buf` as it was,
   * since the caller drops the buffer on its error path and never reads it.
   */
  method ReadToString(file: File, buf: string) returns (result: Result<Unit, IoError>, filled: string)
    ensures file.read.Ok? ==> result == Ok(Unit) && filled == buf + file.read.value
    ensures file.read.Err? ==> result == Err(file.read.error) && filled == buf
  {
    match file.read
    case Ok(contents) =>
      result := Ok(Unit);
      filled := buf + contents;
    case Err(e) =>
      result := Err(e);
      filled := buf;
  }

  /** `match_error_propagation`: both errors returned by hand from a `match`. */
  method MatchErrorPropagation(openResult: Result<File, IoError>) returns (r: Result<string, IoError>)
    ensures r == UsernameFrom(openResult)
  {
    var usernameFile: File;
    match openResult {
      case Ok(file) => usernameFile := file;
      case Err(err) => return Err(err);
    }
    var username := "";
    var readResult;
    readResult, username := ReadToString(usernameFile, username);
    assert readResult.Ok? ==> username == usernameFile.read.value;
    match readResult {
      case Ok(_) => r := Ok(Trim(username));
      case Err(err) => return Err(err);
    }
  }

  /** `shorthand_error_propagation`: the same with `?` after each step. */
  method ShorthandErrorPropagation(openResult: Result<File, IoError>) returns (r: Result<string, IoError>)
    ensures r == UsernameFrom(openResult)
  {
    if openResult.Err? {
      return Err(openResult.error);
    }
    var usernameFile := openResult.value;
    var username := "";
    var readResult;
    readResult, username := ReadToString(usernameFile, username);
    assert readResult.Ok? ==> username == usernameFile.read.value;
    if readResult.Err? {
      return Err(readResult.error);
    }
    r := Ok(Trim(username));
  }

  /** `shorthand_error_propagation_shorter`: the two `?`s chained on one line. */
  method ShorthandErrorPropagationShorter(openResult: Result<File, IoError>) returns (r: Result<string, IoError>)
    ensures r == UsernameFrom(openResult)
  {
    var username := "";
    if openResult.Err? {
      return Err(openResult.error);
    }
    var readResult;
    readResult, username := ReadToString(openResult.value, username);
    assert readResult.Ok? ==> username == openResult.value.read.value;
    if readResult.Err? {
      return Err(readResult.error);
    }
    r := Ok(Trim(username));
  }

  /**
   * `shorthand_error_propagation_shortest`, i.e. `fs::read_to_string`: the
   * same errors, but the contents come back untrimmed.
   */
  function ShorthandErrorPropagationShortest(openResult: Result<File, IoError>): (r: Result<string, IoError>)
    ensures openResult.Err? ==> r == Err(openResult.error)
    ensures openResult.Ok? ==> r == openResult.value.read
  {
    match openResult
    case Err(e) => Err(e)
    case Ok(file) => file.read
  }

  /**
   * The shortest variant fails exactly when the others do, with the same
   * error, and on success the others return its contents trimmed.
   */
  lemma ShortestDiffersOnlyByTrim(openResult: Result<File, IoError>)
    ensures ShorthandErrorPropagationShortest(openResult).Err? <==> UsernameFrom(openResult).Err?
    ensures ShorthandErrorPropagationShortest(openResult).Err? ==>
              ShorthandErrorPropagationShortest(openResult) == UsernameFrom(openResult)
    ensures ShorthandErrorPropagationShortest(openResult).Ok? ==>
              UsernameFrom(openResult) == Ok(Trim(ShorthandErrorPropagationShortest(openResult).value))
  {
  }

  /** Where the first line ends: the first `'\n'`, or the end of `text`. */
  function LineEnd(text: string): (e: nat)
    ensures e <= |text|
    ensures forall i | 0 <= i < e :: text[i] != '\n'
    ensures e < |text| ==> text[e] == '\n'
  {
    if text == [] || text[0] == '\n' then 0
    else 1 + LineEnd(text[1..])
  }

  /**
   * `text.lines().next()`: `None` for an empty text; otherwise the text up to
   * the first `'\n'`, without the `'\r'` of a `"\r\n"` ending. A `'\r'` that
   * is not followed by `'\n'` stays in the line.
   */
  function FirstLine(text: string): (r: Option<string>)
    ensures r.None? <==> text == ""
    ensures r.Some? ==> '\n' !in r.value && r.value <= text
  {
    if text == "" then None
    else
      var e := LineEnd(text);
      if e < |text| && e > 0 && text[e - 1] == '\r' then Some(text[..e - 1])
      else Some(text[..e])
  }

  /**
   * `last_char_of_first_line`: `None` when the text has no line or its first
   * line is empty, and otherwise the last character of the first line.
   */
  function LastCharOfFirstLine(text: string): (r: Option<char>)
    ensures text == "" ==> r == None
    ensures text != "" && FirstLine(text).value == "" ==> r == None
    ensures text != "" && FirstLine(text).value != "" ==> r == Some(FirstLine(text).value[|FirstLine(text).value| - 1])
  {
    match FirstLine(text)
    case None => None
    case Some(line) => if line == "" then None else Some(line[|line| - 1])
  }

  /**
   * A line followed by a `"\n"` or `"\r\n"` ending is the first line, whatever
   * follows the ending. A line that itself ends in `'\r'` is excluded, since
   * `"\r\n"` would absorb that `'\r'`.
   */
  lemma {:induction false} FirstLineOf(line: string, ending: string, rest: string)
    requires '\n' !in line && (line == "" || line[|line| - 1] != '\r')
    requires ending == "\n" || ending == "\r\n"
    ensures FirstLine(line + ending + rest) == Some(line)
  {
    var text := line + ending + rest;
    var e := |line| + |ending| - 1;
    assert text[e] == '\n';
    assert forall i | 0 <= i < e :: text[i] != '\n' by {
      forall i | 0 <= i < e ensures text[i] != '\n' {
        if i < |line| {
          assert text[i] == line[i];
        } else {
          assert text[i] == '\r';
        }
      }
    }
    LineEndIsFirstNewline(text, e);
    assert text[..|line|] == line;
  }

  /** A non-empty text without `'\n'` is a single line, kept whole (a final `'\r'` included). */
  lemma FirstLineOfSingleLine(line: string)
    requires line != "" && '\n' !in line
    ensures FirstLine(line) == Some(line)
  {
    LineEndIsFirstNewline(line, |line|);
    assert line[..|line|] == line;
  }

  /** For a text that is a single line, the result is that line's last character, if any. */
  lemma LastCharOfSingleLine(line: string)
    requires '\n' !in line
    ensures LastCharOfFirstLine(line) == if line == "" then None else Some(line[|line| - 1])
  {
    if line != "" {
      FirstLineOfSingleLine(line);
    }
  }

  /**
   * Only the first line matters: whatever follows its `"\n"` or `"\r\n"`
   * ending leaves the result as it is for the line alone.
   */
  lemma OnlyFirstLineMatters(line: string, ending: string, rest: string)
    requires '\n' !in line && (line == "" || line[|line| - 1] != '\r')
    requires ending == "\n" || ending == "\r\n"
    ensures LastCharOfFirstLine(line + ending + rest) == LastCharOfFirstLine(line)
  {
    FirstLineOf(line, ending, rest);
    LastCharOfSingleLine(line);
  }

  /** `LineEnd` is the first `'\n'`: any index before which there is none and at which there is one. */
  lemma {:induction false} LineEndIsFirstNewline(text: string, e: nat)
    requires e <= |text|
    requires forall i | 0 <= i < e :: text[i] != '\n'
    requires e < |text| ==> text[e] == '\n'
    ensures LineEnd(text) == e
  {
    if e > 0 {
      LineEndIsFirstNewline(text[1..], e - 1);
    }
  }

  /** A first line that ends in a character yields that character. */
  lemma LastCharOfNonEmptyFirstLine()
    ensures LastCharOfFirstLine("Hi!\nBye") == Some('!')
  {
    assert FirstLine("Hi!\nBye") == Some("Hi!") by {
      FirstLineOf("Hi!", "\n", "Bye");
      assert "Hi!" + "\n" + "Bye" == "Hi!\nBye";
    }
  }

  /** An empty first line yields nothing, whatever follows it. */
  lemma LastCharOfEmptyFirstLine()
    ensures LastCharOfFirstLine("\nHi!") == None
  {
    OnlyFirstLineMatters("", "\n", "Hi!");
  }

  /** A `"\r\n"` ending is not part of the line. */
  lemma LastCharBeforeCarriageReturn()
    ensures LastCharOfFirstLine("Hi\r\nthere") == Some('i')
  {
    assert FirstLine("Hi\r\nthere") == Some("Hi") by {
      FirstLineOf("Hi", "\r\n", "there");
      assert "Hi" + "\r\n" + "there" == "Hi\r\nthere";
    }
  }
}
