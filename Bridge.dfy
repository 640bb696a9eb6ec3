/**
 * The message handler: the authorization guard every handler goes through,
 * then ensure the session, run the CLI, count the message once the process
 * has started (whatever the run gave), extract the reply and its cost
 * annotation, substitute a placeholder for an empty reply and send it in
 * chunks Telegram accepts.
 */
module Bridge {
  import opened Wrappers
  import opened Text
  import opened Json
  import opened Sessions
  import opened Runner
  import opened Responses
  import opened Chunking

  /** The configuration the handler reads. */
  datatype Config = Config(allowedUsers: set<int>, allowedTools: Option<string>, timeoutSeconds: int)

  const UnauthorizedReply: string := "Sorry, you are not authorized to use this bot."
  const EmptyReply: string := "(empty response from Claude)"

  /** The guard: only listed user ids are served. */
  predicate Authorized(config: Config, userId: int) {
    userId in config.allowedUsers
  }

  /** What the user sees of one message: nothing, a crash of the handler (no reply), or these Telegram messages in order. */
  datatype Outcome = Ignored | Crashed | Replied(messages: seq<string>)

  /** The reply as shown: never empty. */
  function Shown(reply: string): (shown: string)
    ensures shown != ""
    ensures reply != "" ==> shown == reply
  {
    if reply == "" then EmptyReply else reply
  }

  /**
   * Sending an extracted reply with its cost annotation, either of which is
   * `None` where Python raised. The chunks are those of the corrected chunker;
   * wherever `chunk_message` as written ends they are exactly the ones it
   * returns (`DeliverAgrees`).
   */
  function Deliver(reply: Option<string>, costInfo: Option<string>): (outcome: Outcome)
    ensures outcome.Crashed? <==> reply.None? || costInfo.None?
    ensures outcome.Replied? ==>
      var full := Shown(reply.value) + costInfo.value;
      Terminates(full, TelegramLimit, 1)
      && |outcome.messages| >= 1
      && (forall i :: 0 <= i < |outcome.messages| ==> |outcome.messages[i]| <= TelegramLimit)
      && |ChunkGaps(full, TelegramLimit, 1)| == |outcome.messages|
      && Interleave(outcome.messages, ChunkGaps(full, TelegramLimit, 1)) == full
  {
    if reply.None? || costInfo.None? then Crashed
    else
      var full := Shown(reply.value) + costInfo.value;
      CorrectedTerminates(full, TelegramLimit);
      ChunksBounded(full, TelegramLimit, 1);
      ChunksReassemble(full, TelegramLimit, 1);
      Replied(Chunks(full, TelegramLimit, 1))
  }

  /** Wherever `chunk_message` as written ends on the full reply, `Deliver` sends exactly its chunks. */
  lemma DeliverAgrees(reply: string, costInfo: string)
    requires Terminates(Shown(reply) + costInfo, TelegramLimit, 0)
    ensures Deliver(Some(reply), Some(costInfo)) == Replied(Chunks(Shown(reply) + costInfo, TelegramLimit, 0))
  {
    ChunksConservative(Shown(reply) + costInfo, TelegramLimit);
  }

  /** What the user reads for each way the CLI run can end. */
  lemma ClassifiedReplyText(outcome: ProcessOutcome, timeoutSeconds: int)
    ensures outcome.TimedOut? ==>
      ResponseText(Classify(outcome, timeoutSeconds)) == Some("Error: " + TimeoutMessage(timeoutSeconds))
    ensures outcome.Exited? && outcome.returnCode != 0 ==>
      ResponseText(Classify(outcome, timeoutSeconds)) == Some("Error: " + CliErrorMessage(outcome.stderr))
    ensures outcome.Exited? && outcome.returnCode == 0 && outcome.parsed.None? ==>
      ResponseText(Classify(outcome, timeoutSeconds)) == Some(Strip(outcome.stdout))
    ensures outcome.Exited? && outcome.returnCode == 0 && outcome.parsed.Some? ==>
      ResponseText(Classify(outcome, timeoutSeconds)) == ResponseText(outcome.parsed.value)
  {
    var r := Classify(outcome, timeoutSeconds);
    if outcome.TimedOut? || outcome.returnCode != 0 {
      var message := r.fields[0].1.s;
      ErrorWins([], message, []);
      assert [] + [("error", JString(message))] + [] == r.fields;
    } else if outcome.parsed.None? {
      StringResultVerbatim([], Strip(outcome.stdout));
      assert [] + [("result", JString(Strip(outcome.stdout)))] == r.fields;
    }
  }

  /** The responses `run` makes up itself carry no `cost_usd`, so they get no cost annotation. */
  lemma FailuresCostNothing(outcome: ProcessOutcome, timeoutSeconds: int, floatText: string)
    requires outcome.TimedOut? || outcome.returnCode != 0 || outcome.parsed.None?
    ensures FormatCost(Classify(outcome, timeoutSeconds), floatText) == Some("")
  {
    var r := Classify(outcome, timeoutSeconds);
    assert |r.fields| == 1 && r.fields[0].0 != "cost_usd";
    assert Lookup(r.fields, "cost_usd").None?;
  }

  /** An authorized user is answered whenever the run fails or its output is not JSON: errors reach the user as text. */
  lemma FailuresAreAnswered(outcome: ProcessOutcome, timeoutSeconds: int, floatText: string)
    requires outcome.TimedOut? || outcome.returnCode != 0 || outcome.parsed.None?
    ensures var response := Classify(outcome, timeoutSeconds);
      Deliver(ResponseText(response), FormatCost(response, floatText)).Replied?
  {
    ClassifiedReplyText(outcome, timeoutSeconds);
    FailuresCostNothing(outcome, timeoutSeconds, floatText);
  }

  /**
   * One text message from `userId`. `freshId` is the id `ensure` would give a
   * new session, `launch` whether the CLI process started and how it ended,
   * `floatText` the `.4f` rendering of a float cost. `command` is the argument
   * list the CLI is started with.
   */
  method HandleMessage(store: SessionManager, config: Config, userId: int, text: Option<string>,
                       freshId: string, launch: Launch, floatText: string)
    returns (outcome: Outcome, command: Option<seq<string>>)
    modifies store
    ensures !Authorized(config, userId) ==> outcome == Replied([UnauthorizedReply]) && command.None? && unchanged(store)
    ensures Authorized(config, userId) && (text.None? || text.value == "") ==>
      outcome == Ignored && command.None? && unchanged(store)
    ensures Authorized(config, userId) && text.Some? && text.value != "" ==>
      var key := UserKey(userId);
      var session := Ensured(old(store.data), key, freshId, store.defaultModel)[key];
      command == Some(Render(Plan(session, store.defaultModel, config.allowedTools, text.value)))
      && (key !in old(store.data) || launch.Launched? ==> store.persisted == Written(store.data))
      && (key in old(store.data) && launch.SpawnFailed? ==> store.persisted == old(store.persisted))
      && (launch.SpawnFailed? ==>
            outcome == Crashed && store.data == Ensured(old(store.data), key, freshId, store.defaultModel))
      && (launch.Launched? ==>
            var response := Classify(launch.outcome, config.timeoutSeconds);
            store.data == AfterIncrement(old(store.data), key, freshId, store.defaultModel)
            && outcome == Deliver(ResponseText(response), FormatCost(response, floatText)))
  {
    if userId !in config.allowedUsers {
      return Replied([UnauthorizedReply]), None;
    }
    if text.None? || text.value == "" {
      return Ignored, None;
    }
    var prompt := text.value;
    ghost var before := store.data;
    var session := store.Ensure(userId, freshId);
    var cmd := BuildCommand(session, store.defaultModel, config.allowedTools, prompt);
    command := Some(cmd);
    if launch.SpawnFailed? {
      return Crashed, command;
    }
    var response := Classify(launch.outcome, config.timeoutSeconds);
    store.Increment(userId, freshId);
    IncrementAfterEnsure(before, UserKey(userId), freshId, freshId, store.defaultModel);
    var reply := ExtractResponseText(response);
    var costInfo := FormatCost(response, floatText);
    if reply.None? || costInfo.None? {
      return Crashed, command;
    }
    var shown := reply.value;
    if shown == "" {
      shown := EmptyReply;
    }
    var messages := ChunkMessageCorrected(shown + costInfo.value, TelegramLimit);
    outcome := Replied(messages);
    assert shown == Shown(reply.value);
    assert outcome == Deliver(reply, costInfo);
  }
}
