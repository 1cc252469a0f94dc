/** Translation of a chat history into the Anthropic message format. `valid` stands for the
    JSON validity check of a tool call's arguments. */
module AnthropicMessages {
  import opened Text

  datatype ToolCall = ToolCall(id: string, name: string, arguments: string)

  datatype Message = Message(role: string, content: string, toolCalls: seq<ToolCall>, toolCallId: string)

  datatype Block =
    | TextBlock(text: string)
    | ToolUse(id: string, name: string, input: string)
    | ToolResult(toolUseId: string, content: string)

  datatype Role = User | Assistant

  datatype Translated = Translated(role: Role, content: seq<Block>)

  /** A block together with the role that says it. */
  datatype Said = Said(role: Role, block: Block)

  predicate Blank(s: string) {
    TrimSpace(s) == ""
  }

  // ---------- what one message says ----------

  function CallBlock(valid: string -> bool, call: ToolCall): Block {
    ToolUse(call.id, call.name, if valid(call.arguments) then call.arguments else "{}")
  }

  /** `text`, then the first `n` calls, in order. */
  function WithCalls(valid: string -> bool, text: seq<Block>, calls: seq<ToolCall>, n: nat): seq<Block>
    requires n <= |calls|
  {
    if n == 0 then text else WithCalls(valid, text, calls, n - 1) + [CallBlock(valid, calls[n - 1])]
  }

  function TextOf(msg: Message): seq<Block> {
    if Blank(msg.content) then [] else [TextBlock(msg.content)]
  }

  function AssistantBlocks(valid: string -> bool, msg: Message): (blocks: seq<Block>)
    ensures blocks != []
  {
    var blocks := WithCalls(valid, TextOf(msg), msg.toolCalls, |msg.toolCalls|);
    if blocks == [] then [TextBlock("")] else blocks
  }

  function Tag(role: Role, blocks: seq<Block>): (said: seq<Said>)
    ensures |said| == |blocks|
    ensures forall i :: 0 <= i < |blocks| ==> said[i] == Said(role, blocks[i])
  {
    seq(|blocks|, i requires 0 <= i < |blocks| => Said(role, blocks[i]))
  }

  /** The reference: each message on its own, and a system message not at all. */
  function Says(valid: string -> bool, msg: Message): seq<Said> {
    if msg.role == "system" then []
    else if msg.role == "assistant" then Tag(Assistant, AssistantBlocks(valid, msg))
    else if msg.role == "tool" then [Said(User, ToolResult(msg.toolCallId, msg.content))]
    else [Said(User, TextBlock(msg.content))]
  }

  function AllSay(valid: string -> bool, msgs: seq<Message>): seq<Said> {
    if msgs == [] then [] else AllSay(valid, msgs[..|msgs| - 1]) + Says(valid, msgs[|msgs| - 1])
  }

  function SystemParts(msgs: seq<Message>): seq<string> {
    if msgs == [] then []
    else
      var m := msgs[|msgs| - 1];
      SystemParts(msgs[..|msgs| - 1]) + (if m.role == "system" && !Blank(m.content) then [m.content] else [])
  }

  function Join(parts: seq<string>): string {
    if parts == [] then ""
    else if |parts| == 1 then parts[0]
    else Join(parts[..|parts| - 1]) + "\n\n" + parts[|parts| - 1]
  }

  // ---------- what the output says ----------

  function Flatten(out: seq<Translated>): seq<Said> {
    if out == [] then []
    else Flatten(out[..|out| - 1]) + Tag(out[|out| - 1].role, out[|out| - 1].content)
  }

  /** The shape the API expects: nothing is empty, a user message is one block with tool
      results after it, and one that opens with a tool result does not follow a user message. */
  predicate WellFormedAt(out: seq<Translated>, i: nat)
    requires i < |out|
  {
    && out[i].content != []
    && (out[i].role == User ==> forall k :: 1 <= k < |out[i].content| ==> out[i].content[k].ToolResult?)
    && (out[i].role == User && out[i].content[0].ToolResult? && i > 0 ==> out[i - 1].role == Assistant)
  }

  predicate WellFormed(out: seq<Translated>) {
    forall i :: 0 <= i < |out| ==> WellFormedAt(out, i)
  }

  /** The assistant's messages, one for each that it wrote. */
  function AssistantTurns(out: seq<Translated>): seq<seq<Block>> {
    if out == [] then []
    else
      var last := out[|out| - 1];
      AssistantTurns(out[..|out| - 1]) + (if last.role == Assistant then [last.content] else [])
  }

  function WrittenTurns(valid: string -> bool, msgs: seq<Message>): seq<seq<Block>> {
    if msgs == [] then []
    else
      var m := msgs[|msgs| - 1];
      WrittenTurns(valid, msgs[..|msgs| - 1]) + (if m.role == "assistant" then [AssistantBlocks(valid, m)] else [])
  }

  // ---------- the two ways the output grows ----------

  lemma AppendedShape(out: seq<Translated>, m: Translated)
    requires WellFormed(out) && m.content != []
    requires m.role == User ==> |m.content| == 1
    requires m.role == User && m.content[0].ToolResult? && out != [] ==> out[|out| - 1].role == Assistant
    ensures WellFormed(out + [m])
  {
    var more := out + [m];
    forall i | 0 <= i < |more| ensures WellFormedAt(more, i) {
      if i < |out| { assert WellFormedAt(out, i); }
    }
  }

  lemma AppendedContent(out: seq<Translated>, m: Translated)
    ensures Flatten(out + [m]) == Flatten(out) + Tag(m.role, m.content)
    ensures AssistantTurns(out + [m]) == AssistantTurns(out) + (if m.role == Assistant then [m.content] else [])
  {
    assert (out + [m])[..|out|] == out;
  }

  /** A user message of one block. */
  lemma AppendedBlock(out: seq<Translated>, b: Block)
    requires WellFormed(out) && (b.ToolResult? && out != [] ==> out[|out| - 1].role == Assistant)
    ensures var more := out + [Translated(User, [b])];
            WellFormed(more) && Flatten(more) == Flatten(out) + [Said(User, b)] && AssistantTurns(more) == AssistantTurns(out)
  {
    AppendedShape(out, Translated(User, [b]));
    AppendedContent(out, Translated(User, [b]));
    assert Tag(User, [b]) == [Said(User, b)];
  }

  lemma Extended(out: seq<Translated>, b: Block)
    requires WellFormed(out) && out != [] && out[|out| - 1].role == User && b.ToolResult?
    ensures var last := out[|out| - 1]; var longer := last.(content := last.content + [b]);
            && WellFormed(out[|out| - 1 := longer])
            && Flatten(out[|out| - 1 := longer]) == Flatten(out) + [Said(User, b)]
            && AssistantTurns(out[|out| - 1 := longer]) == AssistantTurns(out)
  {
    var last := out[|out| - 1];
    var longer := last.(content := last.content + [b]);
    var more := out[|out| - 1 := longer];
    assert more[..|out| - 1] == out[..|out| - 1];
    assert Tag(User, longer.content) == Tag(User, last.content) + [Said(User, b)];
    forall i | 0 <= i < |more| ensures WellFormedAt(more, i) {
      assert WellFormedAt(out, i);
    }
  }

  /** `out` translates `msgs`. */
  ghost predicate Translates(valid: string -> bool, msgs: seq<Message>, out: seq<Translated>) {
    && Flatten(out) == AllSay(valid, msgs)
    && AssistantTurns(out) == WrittenTurns(valid, msgs)
    && WellFormed(out)
  }

  lemma OneMore(msgs: seq<Message>, msg: Message)
    ensures (msgs + [msg])[..|msgs|] == msgs && (msgs + [msg])[|msgs|] == msg
  {
  }

  /** What one more message adds to the reference. */
  lemma SaysMore(valid: string -> bool, msgs: seq<Message>, msg: Message)
    ensures AllSay(valid, msgs + [msg]) == AllSay(valid, msgs) + Says(valid, msg)
    ensures WrittenTurns(valid, msgs + [msg])
         == WrittenTurns(valid, msgs) + (if msg.role == "assistant" then [AssistantBlocks(valid, msg)] else [])
  {
    OneMore(msgs, msg);
  }

  lemma SystemKeeps(valid: string -> bool, msgs: seq<Message>, msg: Message, out: seq<Translated>)
    requires Translates(valid, msgs, out) && msg.role == "system"
    ensures Translates(valid, msgs + [msg], out)
  {
    SaysMore(valid, msgs, msg);
  }

  lemma AssistantKeeps(valid: string -> bool, msgs: seq<Message>, msg: Message, out: seq<Translated>)
    requires Translates(valid, msgs, out) && msg.role == "assistant"
    ensures Translates(valid, msgs + [msg], out + [Translated(Assistant, AssistantBlocks(valid, msg))])
  {
    var m := Translated(Assistant, AssistantBlocks(valid, msg));
    SaysMore(valid, msgs, msg);
    AppendedShape(out, m);
    AppendedContent(out, m);
  }

  lemma ToolKeeps(valid: string -> bool, msgs: seq<Message>, msg: Message, out: seq<Translated>)
    requires Translates(valid, msgs, out) && msg.role == "tool"
    requires out == [] || out[|out| - 1].role != User
    ensures Translates(valid, msgs + [msg], out + [Translated(User, [ToolResult(msg.toolCallId, msg.content)])])
  {
    SaysMore(valid, msgs, msg);
    AppendedBlock(out, ToolResult(msg.toolCallId, msg.content));
  }

  lemma UserKeeps(valid: string -> bool, msgs: seq<Message>, msg: Message, out: seq<Translated>)
    requires Translates(valid, msgs, out) && msg.role !in {"system", "assistant", "tool"}
    ensures Translates(valid, msgs + [msg], out + [Translated(User, [TextBlock(msg.content)])])
  {
    SaysMore(valid, msgs, msg);
    AppendedBlock(out, TextBlock(msg.content));
  }

  lemma ExtendKeeps(valid: string -> bool, msgs: seq<Message>, msg: Message, out: seq<Translated>)
    requires Translates(valid, msgs, out) && msg.role == "tool" && out != [] && out[|out| - 1].role == User
    ensures var last := out[|out| - 1];
            Translates(valid, msgs + [msg], out[|out| - 1 := last.(content := last.content + [ToolResult(msg.toolCallId, msg.content)])])
  {
    SaysMore(valid, msgs, msg);
    Extended(out, ToolResult(msg.toolCallId, msg.content));
  }

  lemma SystemPartsMore(msgs: seq<Message>, msg: Message)
    ensures SystemParts(msgs + [msg])
         == SystemParts(msgs) + (if msg.role == "system" && !Blank(msg.content) then [msg.content] else [])
  {
    OneMore(msgs, msg);
  }

  /** The translation. Read with its roles, the output says exactly what the messages say, in
      order; the assistant's turns stay apart; the system text is that of the system messages
      that are not blank. */
  method ToAnthropicMessages(valid: string -> bool, msgs: seq<Message>) returns (system: string, out: seq<Translated>)
    ensures system == Join(SystemParts(msgs))
    ensures Flatten(out) == AllSay(valid, msgs)
    ensures AssistantTurns(out) == WrittenTurns(valid, msgs)
    ensures |AssistantTurns(out)| == Written(msgs)
    ensures forall m :: 0 <= m < |msgs| && msgs[m].role == "assistant" ==>
              Written(msgs[..m]) < |AssistantTurns(out)| && Renders(valid, msgs[m], AssistantTurns(out)[Written(msgs[..m])])
    ensures WellFormed(out)
  {
    var systemParts: seq<string> := [];
    out := [];
    for n := 0 to |msgs|
      invariant systemParts == SystemParts(msgs[..n])
      invariant Translates(valid, msgs[..n], out)
    {
      var msg := msgs[n];
      assert msgs[..n + 1] == msgs[..n] + [msg];
      SystemPartsMore(msgs[..n], msg);
      if msg.role == "system" {
        if TrimSpace(msg.content) != "" { systemParts := systemParts + [msg.content]; }
        SystemKeeps(valid, msgs[..n], msg, out);
      } else if msg.role == "assistant" {
        var blocks := TranslateAssistant(valid, msg);
        AssistantKeeps(valid, msgs[..n], msg, out);
        out := out + [Translated(Assistant, blocks)];
      } else if msg.role == "tool" {
        var block := ToolResult(msg.toolCallId, msg.content);
        if |out| > 0 && out[|out| - 1].role == User {
          ExtendKeeps(valid, msgs[..n], msg, out);
          var last := out[|out| - 1];
          out := out[|out| - 1 := last.(content := last.content + [block])];
        } else {
          ToolKeeps(valid, msgs[..n], msg, out);
          out := out + [Translated(User, [block])];
        }
      } else {
        UserKeeps(valid, msgs[..n], msg, out);
        out := out + [Translated(User, [TextBlock(msg.content)])];
      }
    }
    assert msgs[..|msgs|] == msgs;
    system := Join(systemParts);
    TurnCount(valid, msgs);
    forall m | 0 <= m < |msgs| && msgs[m].role == "assistant"
      ensures Written(msgs[..m]) < |WrittenTurns(valid, msgs)|
      ensures Renders(valid, msgs[m], WrittenTurns(valid, msgs)[Written(msgs[..m])])
    {
      TurnsRender(valid, msgs, m);
    }
  }

  /** An assistant's message has a block, whatever it holds. */
  method TranslateAssistant(valid: string -> bool, msg: Message) returns (blocks: seq<Block>)
    ensures blocks == AssistantBlocks(valid, msg)
    ensures Renders(valid, msg, blocks)
  {
    BlocksRender(valid, msg);
    blocks := [];
    if TrimSpace(msg.content) != "" { blocks := blocks + [TextBlock(msg.content)]; }
    for i := 0 to |msg.toolCalls|
      invariant blocks == WithCalls(valid, TextOf(msg), msg.toolCalls, i)
    {
      var call := msg.toolCalls[i];
      var input := call.arguments;
      if !valid(input) { input := "{}"; }
      blocks := blocks + [ToolUse(call.id, call.name, input)];
    }
    if |blocks| == 0 { blocks := blocks + [TextBlock("")]; }
  }

  // ---------- what the shape pins down ----------

  /** Every tool call has its block, in order, after the text, and nothing else is there: with its
      own id and name, and its own arguments if they are valid. */
  lemma {:induction false} CallsInOrder(valid: string -> bool, msg: Message, n: nat, k: nat)
    requires k < n <= |msg.toolCalls|
    ensures var blocks, t := WithCalls(valid, TextOf(msg), msg.toolCalls, n), |TextOf(msg)|;
            var call := msg.toolCalls[k];
            && |blocks| == t + n && TextOf(msg) <= blocks
            && blocks[t + k] == ToolUse(call.id, call.name, if valid(call.arguments) then call.arguments else "{}")
  {
    hide TextOf;
    var shorter := WithCalls(valid, TextOf(msg), msg.toolCalls, n - 1);
    assert WithCalls(valid, TextOf(msg), msg.toolCalls, n) == shorter + [CallBlock(valid, msg.toolCalls[n - 1])];
    CallsFollow(valid, TextOf(msg), msg.toolCalls, n - 1);
    if k < n - 1 {
      CallsInOrder(valid, msg, n - 1, k);
    }
  }

  lemma {:induction false} CallsFollow(valid: string -> bool, text: seq<Block>, calls: seq<ToolCall>, n: nat)
    requires n <= |calls|
    ensures |WithCalls(valid, text, calls, n)| == |text| + n && text <= WithCalls(valid, text, calls, n)
  {
    if n > 0 { CallsFollow(valid, text, calls, n - 1); }
  }

  /** The blocks of one assistant message: its text unless that is blank, then one block for each
      call, in order; a message with neither has one empty text. */
  predicate Renders(valid: string -> bool, msg: Message, blocks: seq<Block>) {
    var t := if TrimSpace(msg.content) == "" then 0 else 1;
    if t + |msg.toolCalls| == 0 then blocks == [TextBlock("")]
    else
      && |blocks| == t + |msg.toolCalls|
      && (t == 1 ==> blocks[0] == TextBlock(msg.content))
      && (forall k :: 0 <= k < |msg.toolCalls| ==>
            var call := msg.toolCalls[k];
            blocks[t + k] == ToolUse(call.id, call.name, if valid(call.arguments) then call.arguments else "{}"))
  }

  lemma BlocksRender(valid: string -> bool, msg: Message)
    ensures Renders(valid, msg, AssistantBlocks(valid, msg))
  {
    var blocks, t := AssistantBlocks(valid, msg), |TextOf(msg)|;
    forall k | 0 <= k < |msg.toolCalls|
      ensures |blocks| == t + |msg.toolCalls| && TextOf(msg) <= blocks
      ensures blocks[t + k] == ToolUse(msg.toolCalls[k].id, msg.toolCalls[k].name,
                                       if valid(msg.toolCalls[k].arguments) then msg.toolCalls[k].arguments else "{}")
    {
      CallsInOrder(valid, msg, |msg.toolCalls|, k);
    }
    if msg.toolCalls != [] { CallsInOrder(valid, msg, |msg.toolCalls|, 0); }
  }

  /** How many of the messages are the assistant's. */
  function Written(msgs: seq<Message>): nat {
    if msgs == [] then 0
    else Written(msgs[..|msgs| - 1]) + (if msgs[|msgs| - 1].role == "assistant" then 1 else 0)
  }

  /** The assistant's turns are its messages, each rendered on its own. */
  lemma {:induction false} TurnsRender(valid: string -> bool, msgs: seq<Message>, m: nat)
    requires m < |msgs| && msgs[m].role == "assistant"
    ensures var turns, at := WrittenTurns(valid, msgs), Written(msgs[..m]);
            |turns| == Written(msgs) && at < |turns| && Renders(valid, msgs[m], turns[at])
  {
    hide Renders, AssistantBlocks;
    var front := msgs[..|msgs| - 1];
    TurnCount(valid, front);
    if m == |front| {
      BlocksRender(valid, msgs[m]);
    } else {
      assert front[..m] == msgs[..m];
      TurnsRender(valid, front, m);
    }
  }

  lemma {:induction false} TurnCount(valid: string -> bool, msgs: seq<Message>)
    ensures |WrittenTurns(valid, msgs)| == Written(msgs)
  {
    if msgs != [] { TurnCount(valid, msgs[..|msgs| - 1]); }
  }

  /** A user's message and a tool's result are said where their turn comes. */
  lemma {:induction false} SaidInPlace(valid: string -> bool, msgs: seq<Message>, m: nat)
    requires m < |msgs| && msgs[m].role != "system" && msgs[m].role != "assistant"
    ensures var all, at := AllSay(valid, msgs), |AllSay(valid, msgs[..m])|;
            && at < |all|
            && all[at] == Said(User, if msgs[m].role == "tool" then ToolResult(msgs[m].toolCallId, msgs[m].content)
                                     else TextBlock(msgs[m].content))
  {
    var front := msgs[..|msgs| - 1];
    if m < |front| {
      assert front[..m] == msgs[..m];
      SaidInPlace(valid, front, m);
    }
  }

  /** A system message says nothing, every other message but the assistant's one thing. */
  lemma SaidOnce(valid: string -> bool, msgs: seq<Message>, m: nat)
    requires m < |msgs| && msgs[m].role != "assistant"
    ensures |AllSay(valid, msgs[..m + 1])| == |AllSay(valid, msgs[..m])| + (if msgs[m].role == "system" then 0 else 1)
  {
    assert msgs[..m + 1][..m] == msgs[..m];
  }

  /** The system texts that are not blank, in order, with a blank line between any two. */
  lemma {:induction false} SystemInOrder(msgs: seq<Message>, m: nat)
    requires m < |msgs|
    ensures var parts, at := SystemParts(msgs), |SystemParts(msgs[..m])|;
            && at <= |parts|
            && (msgs[m].role == "system" && TrimSpace(msgs[m].content) != "" ==>
                at < |parts| && parts[at] == msgs[m].content && |SystemParts(msgs[..m + 1])| == at + 1)
            && (!(msgs[m].role == "system" && TrimSpace(msgs[m].content) != "") ==> |SystemParts(msgs[..m + 1])| == at)
  {
    var front := msgs[..|msgs| - 1];
    assert msgs[..m + 1][..m] == msgs[..m];
    if m < |front| {
      assert front[..m] == msgs[..m] && front[..m + 1] == msgs[..m + 1];
      SystemInOrder(front, m);
    } else {
      assert msgs[..m + 1] == msgs;
    }
  }

  lemma JoinOne(part: string)
    ensures Join([part]) == part
  {
  }

  lemma JoinSnoc(parts: seq<string>, last: string)
    requires parts != []
    ensures Join(parts + [last]) == Join(parts) + "\n\n" + last
  {
    assert (parts + [last])[..|parts|] == parts;
  }

  lemma {:induction false} JoinConcat(a: seq<string>, b: seq<string>)
    requires a != [] && b != []
    ensures Join(a + b) == Join(a) + "\n\n" + Join(b)
  {
    hide Join;
    var front, last := b[..|b| - 1], b[|b| - 1];
    assert b == front + [last] && a + b == (a + front) + [last];
    if front == [] {
      assert b == [last] && a + front == a;
      JoinOne(last);
      JoinSnoc(a, last);
    } else {
      JoinConcat(a, front);
      JoinSnoc(a + front, last);
      JoinSnoc(front, last);
      TextAssociates(Join(a) + "\n\n", Join(front), "\n\n" + last);
      TextAssociates(Join(front), "\n\n", last);
      TextAssociates(Join(a) + "\n\n" + Join(front), "\n\n", last);
    }
  }

  lemma TextAssociates(a: string, b: string, c: string)
    ensures (a + b) + c == a + (b + c)
  {
  }

  predicate ValidInput(valid: string -> bool, b: Block) {
    b.ToolUse? ==> valid(b.input)
  }

  lemma {:induction false} CallInputsValid(valid: string -> bool, msg: Message, n: nat)
    requires valid("{}") && n <= |msg.toolCalls|
    ensures forall b :: b in WithCalls(valid, TextOf(msg), msg.toolCalls, n) ==> ValidInput(valid, b)
  {
    if n > 0 { CallInputsValid(valid, msg, n - 1); }
  }

  /** Whatever arguments the model produced, only valid JSON is sent back. */
  lemma {:induction false} InputsAreValid(valid: string -> bool, msgs: seq<Message>)
    requires valid("{}")
    ensures forall said :: said in AllSay(valid, msgs) ==> ValidInput(valid, said.block)
  {
    if msgs != [] {
      var msg := msgs[|msgs| - 1];
      InputsAreValid(valid, msgs[..|msgs| - 1]);
      CallInputsValid(valid, msg, |msg.toolCalls|);
      forall said | said in Says(valid, msg) ensures ValidInput(valid, said.block) {
        if msg.role == "assistant" { assert said.block in AssistantBlocks(valid, msg); }
      }
    }
  }

  function Last(out: seq<Translated>): Translated
    requires out != []
  {
    out[|out| - 1]
  }

  function Front(out: seq<Translated>): seq<Translated>
    requires out != []
  {
    out[..|out| - 1]
  }

  lemma FlattenEnds(out: seq<Translated>)
    requires out != []
    ensures Flatten(out) == Flatten(Front(out)) + Tag(Last(out).role, Last(out).content)
  {
  }

  lemma WellFormedFront(out: seq<Translated>)
    requires WellFormed(out) && out != []
    ensures WellFormed(Front(out))
  {
    var front := Front(out);
    forall i | 0 <= i < |front| ensures WellFormedAt(front, i) {
      assert WellFormedAt(out, i);
    }
  }

  lemma LastSaid(out: seq<Translated>)
    requires WellFormed(out) && out != []
    ensures var f := Flatten(out); f != [] && f[|f| - 1].role == Last(out).role
  {
    assert WellFormedAt(out, |out| - 1);
    FlattenEnds(out);
  }

  lemma ContentFromFlat(out: seq<Translated>, k: nat)
    requires out != [] && k < |Last(out).content|
    ensures var f, c := Flatten(out), Last(out).content;
            |f| >= |c| && f[|f| - |c| + k] == Said(Last(out).role, c[k])
  {
    FlattenEnds(out);
  }

  /** What is said just before a user message that opens with a tool result is the assistant's. */
  lemma BeforeResult(out: seq<Translated>)
    requires WellFormed(out) && out != [] && Last(out).role == User && |Flatten(out)| > |Last(out).content|
    requires Last(out).content != [] && Last(out).content[0].ToolResult?
    ensures var f := Flatten(out); f[|f| - |Last(out).content| - 1].role == Assistant
  {
    FlattenEnds(out);
    WellFormedFront(out);
    assert Front(out) != [];
    assert WellFormedAt(out, |out| - 1);
    LastSaid(Front(out));
  }

  /** A user message cannot be shorter than another with the same ending. */
  lemma NotShorter(a: seq<Translated>, b: seq<Translated>)
    requires WellFormed(a) && WellFormed(b) && a != [] && b != [] && Flatten(a) == Flatten(b)
    requires Last(a).role == User && Last(b).role == User
    ensures |Last(a).content| >= |Last(b).content|
  {
    var la, lb := Last(a).content, Last(b).content;
    if |la| < |lb| {
      assert la != [] by { assert WellFormedAt(a, |a| - 1); }
      var k := |lb| - |la|;
      ContentFromFlat(a, 0);
      ContentFromFlat(b, k);
      ContentFromFlat(b, k - 1);
      assert la[0].ToolResult? by { assert WellFormedAt(b, |b| - 1); }
      BeforeResult(a);
    }
  }

  lemma SameContent(a: seq<Translated>, b: seq<Translated>)
    requires a != [] && b != [] && Flatten(a) == Flatten(b)
    requires Last(a).role == Last(b).role && |Last(a).content| == |Last(b).content|
    ensures Last(a) == Last(b) && Flatten(Front(a)) == Flatten(Front(b))
  {
    forall k | 0 <= k < |Last(a).content| ensures Last(a).content[k] == Last(b).content[k] {
      ContentFromFlat(a, k);
      ContentFromFlat(b, k);
    }
    FlattenEnds(a);
    FlattenEnds(b);
    var n := |Flatten(Front(a))|;
    assert Flatten(Front(a)) == Flatten(a)[..n] && Flatten(Front(b)) == Flatten(b)[..n];
  }

  lemma TurnsOfFront(out: seq<Translated>)
    requires out != []
    ensures AssistantTurns(out) == if Last(out).role == Assistant then AssistantTurns(Front(out)) + [Last(out).content]
                                   else AssistantTurns(Front(out))
  {
  }

  lemma SameTurns(a: seq<Translated>, b: seq<Translated>)
    requires a != [] && b != [] && Last(a).role == Last(b).role && AssistantTurns(a) == AssistantTurns(b)
    ensures AssistantTurns(Front(a)) == AssistantTurns(Front(b))
    ensures Last(a).role == Assistant ==> Last(a).content == Last(b).content
  {
    TurnsOfFront(a);
    TurnsOfFront(b);
    if Last(a).role == Assistant {
      var n := |AssistantTurns(a)| - 1;
      assert AssistantTurns(a)[n] == Last(a).content && AssistantTurns(b)[n] == Last(b).content;
      assert AssistantTurns(Front(a)) == AssistantTurns(a)[..n] && AssistantTurns(Front(b)) == AssistantTurns(b)[..n];
    }
  }

  /** Contents, turns and shape leave no freedom: there is one such list of messages. */
  lemma {:induction false} TranslationIsUnique(a: seq<Translated>, b: seq<Translated>)
    requires WellFormed(a) && WellFormed(b)
    requires Flatten(a) == Flatten(b) && AssistantTurns(a) == AssistantTurns(b)
    ensures a == b
  {
    if a == [] {
      if b != [] { LastSaid(b); }
    } else if b == [] {
      LastSaid(a);
    } else {
      LastSaid(a);
      LastSaid(b);
      SameTurns(a, b);
      if Last(a).role == User {
        NotShorter(a, b);
        NotShorter(b, a);
      }
      SameContent(a, b);
      WellFormedFront(a);
      WellFormedFront(b);
      TranslationIsUnique(Front(a), Front(b));
      assert a == Front(a) + [Last(a)] && b == Front(b) + [Last(b)];
    }
  }
}
