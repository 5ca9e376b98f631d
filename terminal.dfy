/**
 * The terminal app: the Enter handler trims the input, echoes the command
 * after a prompt, answers it from a fixed switch, and ends with a fresh prompt.
 */
module Terminal {
  /** The characters JavaScript's `String.prototype.trim` removes: white space and line terminators. */
  predicate IsSpace(c: char) {
    || c == '\t' || c == '\n' || c == '\U{000B}' || c == '\U{000C}' || c == '\r' || c == ' '
    || c == '\U{00A0}' || c == '\U{1680}' || ('\U{2000}' <= c <= '\U{200A}')
    || c == '\U{2028}' || c == '\U{2029}' || c == '\U{202F}' || c == '\U{205F}'
    || c == '\U{3000}' || c == '\U{FEFF}'
  }

  /** `s` without its leading white space. */
  function TrimStart(s: string): (r: string)
    ensures |r| <= |s| && r == s[|s| - |r|..]
    ensures forall k :: 0 <= k < |s| - |r| ==> IsSpace(s[k])
    ensures r == [] || !IsSpace(r[0])
    decreases |s|
  {
    if s != [] && IsSpace(s[0]) then
      var r := TrimStart(s[1..]);
      assert forall k :: 1 <= k < |s| ==> s[k] == s[1..][k - 1];
      r
    else s
  }

  /** `s` without its trailing white space. */
  function TrimEnd(s: string): (r: string)
    ensures |r| <= |s| && r == s[..|r|]
    ensures forall k :: |r| <= k < |s| ==> IsSpace(s[k])
    ensures r == [] || !IsSpace(r[|r| - 1])
    decreases |s|
  {
    if s != [] && IsSpace(s[|s| - 1]) then
      var r := TrimEnd(s[..|s| - 1]);
      assert forall k :: 0 <= k < |s| - 1 ==> s[k] == s[..|s| - 1][k];
      r
    else s
  }

  /** `r` is the slice of `s` at `i`, with only white space before and after it. */
  ghost predicate SliceBetweenSpace(s: string, i: int, r: string) {
    && 0 <= i && i + |r| <= |s|
    && r == s[i..i + |r|]
    && (forall k :: 0 <= k < i ==> IsSpace(s[k]))
    && (forall k :: i + |r| <= k < |s| ==> IsSpace(s[k]))
  }

  /**
   * `trim`: the part of `s` between its leading and trailing white space,
   * which starts and ends with a character that is not white space.
   */
  function Trim(s: string): (r: string)
    ensures SliceBetweenSpace(s, |s| - |TrimStart(s)|, r)
    ensures r == [] || (!IsSpace(r[0]) && !IsSpace(r[|r| - 1]))
  {
    var t := TrimStart(s);
    var r := TrimEnd(t);
    TrimSlices(s, t, r);
    r
  }

  lemma TrimSlices(s: string, t: string, r: string)
    requires |t| <= |s| && t == s[|s| - |t|..]
    requires forall k :: 0 <= k < |s| - |t| ==> IsSpace(s[k])
    requires t == [] || !IsSpace(t[0])
    requires |r| <= |t| && r == t[..|r|]
    requires forall k :: |r| <= k < |t| ==> IsSpace(t[k])
    requires r == [] || !IsSpace(r[|r| - 1])
    ensures SliceBetweenSpace(s, |s| - |t|, r)
    ensures r == [] || (!IsSpace(r[0]) && !IsSpace(r[|r| - 1]))
  {
    var i := |s| - |t|;
    forall k | i + |r| <= k < |s|
      ensures IsSpace(s[k])
    {
      assert s[k] == t[k - i];
    }
    if r != [] {
      assert r[0] == t[0];
    }
  }

  /** A command trims to empty exactly when it is all white space. */
  lemma TrimEmptyIffBlank(s: string)
    ensures Trim(s) == [] <==> forall k :: 0 <= k < |s| ==> IsSpace(s[k])
  {
    var i := |s| - |TrimStart(s)|;
    if Trim(s) != [] {
      assert !IsSpace(s[i]);
    }
  }

  /** Trimming a trimmed command changes nothing. */
  lemma TrimIdempotent(s: string)
    ensures Trim(Trim(s)) == Trim(s)
  {
    var r := Trim(s);
    assert TrimStart(r) == r;
    assert TrimEnd(r) == r;
  }

  /** One `.terminal-line`: a prompt followed by a command (empty for a fresh prompt), or plain text. */
  datatype Line = Prompt(cmd: string) | Text(text: string)

  /** What the `switch` does with a command: print one line, or empty the output. */
  datatype Reply = Say(text: string) | ClearScreen

  const NotFound := "zsh: command not found: "

  /** The commands with a fixed answer. */
  const Fixed: map<string, string> :=
    map["ls" := "Applications  Documents  Downloads  Desktop",
        "pwd" := "/Users/user",
        "whoami" := "user",
        "help" := "ls, pwd, date, whoami, echo, clear, help"]

  predicate IsEcho(cmd: string) {
    |cmd| >= 5 && cmd[..5] == "echo "
  }

  lemma EchoIsNoOtherCommand(cmd: string)
    ensures IsEcho(cmd) ==> cmd != "clear" && cmd != "date" && cmd !in Fixed
  {
    if IsEcho(cmd) {
      assert cmd[0] == 'e' && cmd[4] == ' ';
      assert Fixed.Keys == {"ls", "pwd", "whoami", "help"};
    }
  }

  /** The `switch` on a trimmed command; `now` is the text of `new Date()`. */
  function Respond(cmd: string, now: string): (r: Reply)
    ensures r == ClearScreen <==> cmd == "clear"
    ensures cmd == "date" ==> r == Say(now)
    ensures cmd in Fixed ==> r == Say(Fixed[cmd])
    ensures IsEcho(cmd) ==> r == Say(cmd[5..])
    ensures cmd !in Fixed && cmd != "clear" && cmd != "date" && !IsEcho(cmd) ==> r == Say(NotFound + cmd)
  {
    EchoIsNoOtherCommand(cmd);
    if cmd == "clear" then ClearScreen
    else if cmd == "date" then Say(now)
    else if cmd in Fixed then Say(Fixed[cmd])
    else if IsEcho(cmd) then Say(cmd[5..])
    else Say(NotFound + cmd)
  }

  /** `echo X` answers exactly `X`, whatever `X` is. */
  lemma EchoRoundTrip(x: string, now: string)
    ensures Respond("echo " + x, now) == Say(x)
  {
    assert IsEcho("echo " + x);
    assert ("echo " + x)[5..] == x;
  }

  /**
   * The output after a non-empty command: the echoed command and the reply are
   * appended (or everything is cleared), and a fresh prompt always comes last.
   */
  function Run(output: seq<Line>, cmd: string, now: string): (r: seq<Line>)
    ensures |r| > 0 && r[|r| - 1] == Prompt("")
    ensures cmd == "clear" ==> r == [Prompt("")]
    ensures cmd != "clear" ==> r == output + [Prompt(cmd), Text(Respond(cmd, now).text), Prompt("")]
  {
    var echoed := output + [Prompt(cmd)];
    var answered := match Respond(cmd, now)
      case ClearScreen => []
      case Say(t) => echoed + [Text(t)];
    answered + [Prompt("")]
  }

  /** A command other than `clear` keeps every earlier line and adds exactly three. */
  lemma RunKeepsHistory(output: seq<Line>, cmd: string, now: string)
    requires cmd != "clear"
    ensures |Run(output, cmd, now)| == |output| + 3
    ensures Run(output, cmd, now)[..|output|] == output
    ensures Run(output, cmd, now)[|output|] == Prompt(cmd)
  {
  }

  class Terminal {
    /** The lines of `#terminal-output`. */
    var output: seq<Line>
    /** The value of `#terminal-input`. */
    var input: string

    /** A new terminal window shows the login banner and a prompt. */
    constructor (now: string)
      ensures output == [Text("Last login: " + now), Prompt("")] && input == ""
    {
      output := [Text("Last login: " + now), Prompt("")];
      input := "";
    }

    /** The user edits the text of `#terminal-input`; the output is untouched. */
    method Edit(text: string)
      modifies this
      ensures input == text && output == old(output)
    {
      input := text;
    }

    /** The `keypress` handler; `now` is the text of `new Date()` at that moment. */
    method KeyPress(key: string, now: string)
      modifies this
      ensures key != "Enter" ==> output == old(output) && input == old(input)
      ensures key == "Enter" ==> input == ""
      ensures key == "Enter" && Trim(old(input)) == "" ==> output == old(output)
      ensures key == "Enter" && Trim(old(input)) != "" ==> output == Run(old(output), Trim(old(input)), now)
    {
      if key != "Enter" {
        return;
      }
      var cmd := Trim(input);
      input := "";
      if cmd == "" {
        return;
      }
      output := output + [Prompt(cmd)];
      var reply := Respond(cmd, now);
      match reply {
        case ClearScreen => output := [];
        case Say(t) => output := output + [Text(t)];
      }
      output := output + [Prompt("")];
    }
  }
}
