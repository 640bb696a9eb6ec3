/**
 * `ClaudeRunner.run`, without the subprocess: the argument list it builds
 * for the `claude` executable, and the response it makes of the process's
 * outcome (timeout, exit status, output).
 */
module Runner {
  import opened Wrappers
  import opened Text
  import opened Json
  import Sessions

  /** Non-interactive run with JSON output. */
  const Header: seq<string> := ["claude", "-p", "--output-format", "json"]
  /** Auto-deny tools outside the allow-list; at most 50 agentic turns. */
  const Trailer: seq<string> := ["--permission-mode", "dontAsk", "--max-turns", "50"]

  /** What one invocation asks of the CLI, independent of how it is spelled on the command line. */
  datatype Invocation = Invocation(
    resume: bool,
    sessionId: string,
    model: Option<string>,
    allowedTools: Option<seq<string>>,
    prompt: string)

  /** Python truthiness of an optional string: present and not empty. */
  predicate Truthy(s: Option<string>) {
    s.Some? && s.value != ""
  }

  /** No string of `ss` contains `sep`. */
  predicate Avoids(ss: seq<string>, sep: char) {
    forall i :: 0 <= i < |ss| ==> sep !in ss[i]
  }

  /** The stripped, non-empty pieces, in order. */
  function Cleaned(pieces: seq<string>, sep: char): (tools: seq<string>)
    ensures forall i :: 0 <= i < |tools| ==> tools[i] != "" && Stripped(tools[i])
    ensures Avoids(pieces, sep) ==> Avoids(tools, sep)
    decreases |pieces|
  {
    if pieces == [] then []
    else
      var rest := Cleaned(pieces[1..], sep);
      var s := Strip(pieces[0]);
      assert Avoids(pieces, sep) ==> sep !in s && Avoids(pieces[1..], sep) by {
        if Avoids(pieces, sep) {
          assert sep !in pieces[0];
          forall j | 0 <= j < |pieces[1..]| ensures sep !in pieces[1..][j] {
            assert pieces[1..][j] == pieces[j + 1];
          }
        }
      }
      if s != "" then [s] + rest else rest
  }

  /** `[t.strip() for t in CLAUDE_ALLOWED_TOOLS.split(",") if t.strip()]`. */
  function ToolList(config: string): (tools: seq<string>)
    ensures forall i :: 0 <= i < |tools| ==> tools[i] != "" && Stripped(tools[i]) && ',' !in tools[i]
  {
    var pieces := Split(config, ',');
    assert Avoids(pieces, ',');
    Cleaned(pieces, ',')
  }

  lemma {:induction false} CleanedOfClean(names: seq<string>, sep: char)
    requires forall i :: 0 <= i < |names| ==> names[i] != "" && Stripped(names[i])
    ensures Cleaned(names, sep) == names
    decreases |names|
  {
    if names != [] {
      StripOfStripped(names[0]);
      CleanedOfClean(names[1..], sep);
    }
  }

  /** A comma-separated list of tool names reads back as those names. */
  lemma ToolListRoundTrip(names: seq<string>)
    requires |names| >= 1
    requires forall i :: 0 <= i < |names| ==> names[i] != "" && Stripped(names[i]) && ',' !in names[i]
    ensures ToolList(Join(names, ",")) == names
  {
    SplitJoin(names, ',');
    CleanedOfClean(names, ',');
  }

  /** The decisions `run` takes for one message of a session. */
  function Plan(session: Sessions.Session, defaultModel: Option<string>, toolsConfig: Option<string>, prompt: string): Invocation {
    Invocation(
      session.messageCount != 0,
      session.sessionId,
      if Truthy(session.model) then session.model else if Truthy(defaultModel) then defaultModel else None,
      if Truthy(toolsConfig) then Some(ToolList(toolsConfig.value)) else None,
      prompt)
  }

  /** The optional `--model` and `--allowedTools` arguments. */
  function RenderOptions(model: Option<string>, tools: Option<seq<string>>): seq<string> {
    (if model.Some? then ["--model", model.value] else [])
    + (if tools.Some? then ["--allowedTools"] + tools.value else [])
  }

  /** The argument list that spells an invocation. */
  function Render(inv: Invocation): seq<string> {
    Header
    + [if inv.resume then "--resume" else "--session-id", inv.sessionId]
    + RenderOptions(inv.model, inv.allowedTools)
    + Trailer + [inv.prompt]
  }

  /** The decoder for the arguments between the session and the trailer. */
  function ParseOptions(middle: seq<string>): Option<(Option<string>, Option<seq<string>>)> {
    var hasModel := |middle| >= 2 && middle[0] == "--model";
    var rest := if hasModel then middle[2..] else middle;
    if rest != [] && rest[0] != "--allowedTools" then None
    else Some((if hasModel then Some(middle[1]) else None, if rest != [] then Some(rest[1..]) else None))
  }

  lemma ParseRenderOptions(model: Option<string>, tools: Option<seq<string>>)
    ensures ParseOptions(RenderOptions(model, tools)) == Some((model, tools))
  {
    var t := if tools.Some? then ["--allowedTools"] + tools.value else [];
    if model.Some? {
      assert RenderOptions(model, tools)[2..] == t;
    } else {
      assert RenderOptions(model, tools) == t;
    }
  }

  lemma RenderParseOptions(middle: seq<string>)
    requires ParseOptions(middle).Some?
    ensures RenderOptions(ParseOptions(middle).value.0, ParseOptions(middle).value.1) == middle
  {
    if |middle| >= 2 && middle[0] == "--model" {
      assert middle == middle[..2] + middle[2..];
      var rest := middle[2..];
      if rest != [] {
        assert rest == [rest[0]] + rest[1..];
      }
    } else if middle != [] {
      assert middle == [middle[0]] + middle[1..];
    }
  }

  /** The decoder for argument lists of this shape; `None` for any other list. */
  function Parse(args: seq<string>): Option<Invocation> {
    if |args| < 11 || args[..4] != Header || args[|args| - 5..|args| - 1] != Trailer then None
    else if args[4] != "--session-id" && args[4] != "--resume" then None
    else
      match ParseOptions(args[6..|args| - 5])
      case None => None
      case Some((model, tools)) => Some(Invocation(args[4] == "--resume", args[5], model, tools, args[|args| - 1]))
  }

  /** Every invocation is read back from its argument list. */
  lemma ParseRender(inv: Invocation)
    ensures Parse(Render(inv)) == Some(inv)
  {
    var args := Render(inv);
    var options := RenderOptions(inv.model, inv.allowedTools);
    assert args[..4] == Header;
    assert args[4] == if inv.resume then "--resume" else "--session-id";
    assert args[5] == inv.sessionId;
    assert args[|args| - 5..|args| - 1] == Trailer;
    assert args[6..|args| - 5] == options;
    ParseRenderOptions(inv.model, inv.allowedTools);
  }

  /** An argument list the decoder accepts is the rendering of what it decodes to: no two spellings mean the same run. */
  lemma RenderParse(args: seq<string>)
    requires Parse(args).Some?
    ensures Render(Parse(args).value) == args
  {
    var middle := args[6..|args| - 5];
    RenderParseOptions(middle);
    var n := |args|;
    assert args[..6] == Header + [args[4], args[5]];
    assert args[n - 5..] == Trailer + [args[n - 1]];
    assert args == args[..6] + middle + args[n - 5..];
  }

  /** The argument list assembled piece by piece, in the order `run` appends them. */
  lemma RenderInSteps(inv: Invocation, prefix: seq<string>, modelArgs: seq<string>, toolArgs: seq<string>)
    requires prefix == Header + [if inv.resume then "--resume" else "--session-id", inv.sessionId]
    requires modelArgs == if inv.model.Some? then ["--model", inv.model.value] else []
    requires toolArgs == if inv.allowedTools.Some? then ["--allowedTools"] + inv.allowedTools.value else []
    ensures prefix + modelArgs + toolArgs + ["--permission-mode", "dontAsk"] + ["--max-turns", "50"] + [inv.prompt] == Render(inv)
  {
    assert modelArgs + toolArgs == RenderOptions(inv.model, inv.allowedTools);
    assert prefix + modelArgs + toolArgs == prefix + RenderOptions(inv.model, inv.allowedTools);
  }

  /** The command `run` executes for `prompt` in `session`. */
  method BuildCommand(session: Sessions.Session, defaultModel: Option<string>, toolsConfig: Option<string>, prompt: string)
    returns (cmd: seq<string>)
    ensures cmd == Render(Plan(session, defaultModel, toolsConfig, prompt))
    ensures Parse(cmd) == Some(Plan(session, defaultModel, toolsConfig, prompt))
  {
    ghost var plan := Plan(session, defaultModel, toolsConfig, prompt);
    cmd := ["claude", "-p", "--output-format", "json"];
    if session.messageCount == 0 {
      cmd := cmd + ["--session-id", session.sessionId];
    } else {
      cmd := cmd + ["--resume", session.sessionId];
    }
    ghost var prefix := cmd;
    var model := if Truthy(session.model) then session.model else defaultModel;
    ghost var modelArgs: seq<string> := [];
    if Truthy(model) {
      cmd := cmd + ["--model", model.value];
      modelArgs := ["--model", model.value];
    }
    ghost var toolArgs: seq<string> := [];
    if Truthy(toolsConfig) {
      var tools := ToolList(toolsConfig.value);
      cmd := cmd + (["--allowedTools"] + tools);
      toolArgs := ["--allowedTools"] + tools;
    }
    cmd := cmd + ["--permission-mode", "dontAsk"];
    cmd := cmd + ["--max-turns", "50"];
    cmd := cmd + [prompt];
    assert cmd == prefix + modelArgs + toolArgs + ["--permission-mode", "dontAsk"] + ["--max-turns", "50"] + [prompt];
    RenderInSteps(plan, prefix, modelArgs, toolArgs);
    ParseRender(plan);
  }

  /** What became of the `claude` process; `parsed` is what `json.loads` made of its stripped output. */
  datatype ProcessOutcome =
    | TimedOut
    | Exited(returnCode: int, stdout: string, stderr: string, parsed: Option<Json>)

  /**
   * Whether `asyncio.create_subprocess_exec` started the process (it raises, for
   * example, when `claude` is not on the path), and if so how the process ended.
   */
  datatype Launch = SpawnFailed | Launched(outcome: ProcessOutcome)

  function TimeoutMessage(timeoutSeconds: int): string {
    "Claude timed out after " + DecimalString(timeoutSeconds) + "s"
  }

  /** The message for a non-zero exit: the stripped standard error, or a stock text when there is none. */
  function CliErrorMessage(stderr: string): string {
    var e := Strip(stderr);
    "Claude CLI error: " + (if e == "" then "unknown error" else e)
  }

  function ErrorResponse(message: string): Json {
    JObject([("error", JString(message))])
  }

  /**
   * The response `run` returns: an error object on timeout or a non-zero exit,
   * otherwise the parsed output, or the raw output as `result` when it is not JSON.
   */
  function Classify(outcome: ProcessOutcome, timeoutSeconds: int): (response: Json)
    ensures (outcome.TimedOut? || outcome.returnCode != 0) ==> response.JObject? && Lookup(response.fields, "error").Some?
  {
    match outcome
    case TimedOut => ErrorResponse(TimeoutMessage(timeoutSeconds))
    case Exited(code, out, err, parsed) =>
      if code != 0 then ErrorResponse(CliErrorMessage(err))
      else if parsed.Some? then parsed.value
      else JObject([("result", JString(Strip(out)))])
  }
}
