/**
 * run_powershell: what the external process returned, and how runner.py
 * classifies and reports it. Spawning the process is not modelled; its
 * result is an input.
 */
module Shell {

  /** What `subprocess.run(..., capture_output=True, text=True)` hands back. */
  datatype ProcessResult = ProcessResult(returnCode: int, stdout: string, stderr: string)

  /** How run_powershell classifies a finished process, with the stream it reports. */
  datatype Outcome = Success(stdout: string) | Error(stderr: string)

  /** ASCII whitespace as Python's str.isspace sees it: space, \t \n \v \f \r and \x1c-\x1f. */
  predicate IsSpace(c: char)
  {
    c == ' ' || (9 <= c as int <= 13) || (28 <= c as int <= 31)
  }

  /** The number of whitespace characters `s` starts with. */
  function LeadingSpaces(s: string): (n: nat)
    ensures n <= |s|
    ensures forall i :: 0 <= i < n ==> IsSpace(s[i])
    ensures n < |s| ==> !IsSpace(s[n])
  {
    if s != [] && IsSpace(s[0]) then 1 + LeadingSpaces(s[1..]) else 0
  }

  /** The number of whitespace characters `s` ends with. */
  function TrailingSpaces(s: string): (n: nat)
    ensures n <= |s|
    ensures forall i :: |s| - n <= i < |s| ==> IsSpace(s[i])
    ensures n < |s| ==> !IsSpace(s[|s| - 1 - n])
  {
    if s != [] && IsSpace(s[|s| - 1]) then 1 + TrailingSpaces(s[..|s| - 1]) else 0
  }

  /** Python's `s.strip()`: `s` without its leading and trailing whitespace. */
  function Strip(s: string): string
  {
    var lo := LeadingSpaces(s);
    var hi := if lo == |s| then |s| else |s| - TrailingSpaces(s);
    s[lo..hi]
  }

  /**
   * Strip keeps one contiguous slice s[lo..hi] of its input, drops only
   * whitespace, and leaves neither end on whitespace.
   */
  lemma StripSlice(s: string)
    ensures var lo := LeadingSpaces(s);
      var r := Strip(s);
      && lo + |r| <= |s|
      && r == s[lo..lo + |r|]
      && (forall i :: 0 <= i < lo ==> IsSpace(s[i]))
      && (forall i :: lo + |r| <= i < |s| ==> IsSpace(s[i]))
      && (r != [] ==> !IsSpace(r[0]) && !IsSpace(r[|r| - 1]))
  {
    var lo := LeadingSpaces(s);
    if lo < |s| {
      var t := TrailingSpaces(s);
      assert !IsSpace(s[lo]);
      assert lo < |s| - t;
    }
  }

  /** Output that is already stripped is left alone, so Strip is idempotent. */
  lemma StripIdempotent(s: string)
    ensures Strip(Strip(s)) == Strip(s)
  {
    var r := Strip(s);
    StripSlice(s);
    if r != [] {
      assert LeadingSpaces(r) == 0;
      assert TrailingSpaces(r) == 0;
    }
  }

  /**
   * run_powershell's classification: a non-zero return code is an error,
   * reported with the process's standard error; a zero one is a success,
   * reported with its standard output.
   */
  function Classify(p: ProcessResult): (o: Outcome)
    ensures o.Error? <==> p.returnCode != 0
    ensures o.Error? ==> o.stderr == p.stderr
    ensures o.Success? ==> o.stdout == p.stdout
  {
    if p.returnCode != 0 then Error(p.stderr) else Success(p.stdout)
  }

  /** The console line run_powershell prints for an outcome: its tag and the stripped stream. */
  function ConsoleLine(o: Outcome): string
  {
    match o
    case Success(out) => "[SUCCESS] " + Strip(out)
    case Error(err) => "[ERROR] " + Strip(err)
  }

  /**
   * The printed line is tagged `[ERROR] ` exactly when the return code is
   * non-zero, and what follows the tag is the matching stream, stripped.
   */
  lemma ConsoleLineOfProcess(p: ProcessResult)
    ensures var line := ConsoleLine(Classify(p));
      if p.returnCode != 0 then line == "[ERROR] " + Strip(p.stderr)
      else line == "[SUCCESS] " + Strip(p.stdout)
  {
  }
}
