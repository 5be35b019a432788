/**
 * The command-line provider's prompt and response handling
 * (esense/essence/providers/claude_code.py): the system prompt and the
 * conversation are flattened into one tagged text for the CLI, and since
 * the CLI reports no usage, token counts are estimated at four characters
 * per token. The subprocess run itself is a parameter.
 */
module ClaudeCode {
  import opened Values
  import Seqs
  import Text

  const Separator := "\n\n"
  const CharsPerToken := 4
  /** How much of the CLI's error output an error response quotes. */
  const ErrorExcerpt := 200
  const TimeoutText := "[timeout: el CLI de Claude Code no respondió]"
  const NotFoundText := "[error: claude CLI no encontrado]"

  function SystemBlock(system: string): string
  {
    "<system>\n" + system + "\n</system>"
  }

  /** A message speaks for the human when its role is "user" or missing. */
  predicate FromHuman(msg: Record)
  {
    Get(msg, "role", VStr("user")) == VStr("user")
  }

  /** The message's content; content that is not a string reads as "". */
  function Content(msg: Record): string
  {
    StrOf(Get(msg, "content", VStr("")), "")
  }

  /** One message as a tagged block: `<human>` for the human's turns,
      `<assistant>` for any other role. */
  function Block(msg: Record): (b: string)
    ensures Text.StartsWith(b, "<human>\n") <==> FromHuman(msg)
    ensures Text.StartsWith(b, "<assistant>\n") <==> !FromHuman(msg)
  {
    if FromHuman(msg) then
      var b := "<human>\n" + Content(msg) + "\n</human>";
      assert b[..8] == "<human>\n";
      assert b[1] == 'h';
      b
    else
      var b := "<assistant>\n" + Content(msg) + "\n</assistant>";
      assert b[..12] == "<assistant>\n";
      assert b[1] == 'a';
      b
  }

  function Blocks(messages: seq<Record>): (r: seq<string>)
    ensures |r| == |messages|
  {
    seq(|messages|, i requires 0 <= i < |messages| => Block(messages[i]))
  }

  lemma BlocksSnoc(messages: seq<Record>, i: int)
    requires 0 <= i < |messages|
    ensures Blocks(messages[..i + 1]) == Blocks(messages[..i]) + [Block(messages[i])]
  {
  }

  /** The prompt `_build_prompt` produces. */
  function Prompt(system: string, messages: seq<Record>): string
  {
    Text.Join([SystemBlock(system)] + Blocks(messages), Separator)
  }

  /** Without messages the prompt is the system block alone. */
  lemma PromptWithoutMessages(system: string)
    ensures Prompt(system, []) == SystemBlock(system)
  {
    assert [SystemBlock(system)] + Blocks([]) == [SystemBlock(system)];
  }

  /** One more message adds a separator and its block at the end, so the
      blocks follow the messages in order. */
  lemma PromptAppend(system: string, messages: seq<Record>, msg: Record)
    ensures Prompt(system, messages + [msg]) == Prompt(system, messages) + Separator + Block(msg)
  {
    assert Blocks(messages + [msg]) == Blocks(messages) + [Block(msg)];
    assert [SystemBlock(system)] + Blocks(messages + [msg]) == ([SystemBlock(system)] + Blocks(messages)) + [Block(msg)];
    Text.JoinSnoc([SystemBlock(system)] + Blocks(messages), Separator, Block(msg));
  }

  /** The prompt always opens with the system block. */
  lemma {:induction false} PromptStartsWithSystem(system: string, messages: seq<Record>)
    ensures Text.StartsWith(Prompt(system, messages), SystemBlock(system))
    decreases |messages|
  {
    if messages == [] {
      PromptWithoutMessages(system);
      assert Prompt(system, messages)[..|SystemBlock(system)|] == SystemBlock(system);
    } else {
      var init := messages[..|messages| - 1];
      assert messages == init + [messages[|messages| - 1]];
      PromptStartsWithSystem(system, init);
      PromptAppend(system, init, messages[|messages| - 1]);
      var p := Prompt(system, init);
      var n := |SystemBlock(system)|;
      assert (p + Separator + Block(messages[|messages| - 1]))[..n] == p[..n];
    }
  }

  /** `_build_prompt(system, messages)`: the loop collecting the parts. */
  method BuildPrompt(system: string, messages: seq<Record>) returns (prompt: string)
    ensures prompt == Prompt(system, messages)
  {
    var parts := [SystemBlock(system)];
    for i := 0 to |messages|
      invariant parts == [SystemBlock(system)] + Blocks(messages[..i])
    {
      var msg := messages[i];
      var role := Get(msg, "role", VStr("user"));
      var content := StrOf(Get(msg, "content", VStr("")), "");
      var block;
      if role == VStr("user") {
        block := "<human>\n" + content + "\n</human>";
      } else {
        block := "<assistant>\n" + content + "\n</assistant>";
      }
      assert block == Block(msg);
      BlocksSnoc(messages, i);
      parts := parts + [block];
    }
    assert messages[..|messages|] == messages;
    prompt := Text.Join(parts, Separator);
  }

  /** How a run of the CLI ended. */
  datatype CliRun = TimedOut | NotFound | Exited(returnCode: int, stdout: string, stderr: string)

  datatype Response = Response(text: string, inputTokens: nat, outputTokens: nat)

  /** `n` is the token estimate of a text of `len` characters. */
  predicate Estimates(n: nat, len: nat)
  {
    CharsPerToken * n <= len < CharsPerToken * n + CharsPerToken
  }

  /** `ClaudeCodeProvider.complete(system, messages)`: `run` is the CLI's
      behaviour on the prompt. A timeout, a missing CLI or a non-zero exit
      give a bracketed error text and no token counts; otherwise the output
      is stripped and both counts are estimated. */
  method Complete(system: string, messages: seq<Record>, run: string -> CliRun) returns (r: Response)
    ensures var outcome := run(Prompt(system, messages));
      && (outcome.TimedOut? ==> r == Response(TimeoutText, 0, 0))
      && (outcome.NotFound? ==> r == Response(NotFoundText, 0, 0))
      && (outcome.Exited? && outcome.returnCode != 0 ==>
            && r.inputTokens == 0 && r.outputTokens == 0
            && r.text == "[error: " + Seqs.SliceTo(Text.Strip(outcome.stderr), ErrorExcerpt) + "]"
            && |r.text| <= ErrorExcerpt + 9)
      && (outcome.Exited? && outcome.returnCode == 0 ==>
            && r.text == Text.Strip(outcome.stdout)
            && Estimates(r.inputTokens, |Prompt(system, messages)|)
            && Estimates(r.outputTokens, |r.text|))
  {
    var prompt := BuildPrompt(system, messages);
    var outcome := run(prompt);
    match outcome {
      case TimedOut =>
        return Response(TimeoutText, 0, 0);
      case NotFound =>
        return Response(NotFoundText, 0, 0);
      case Exited(code, stdout, stderr) =>
        if code != 0 {
          var err := Text.Strip(stderr);
          return Response("[error: " + Seqs.SliceTo(err, ErrorExcerpt) + "]", 0, 0);
        }
        var text := Text.Strip(stdout);
        r := Response(text, |prompt| / CharsPerToken, |text| / CharsPerToken);
    }
  }
}
