/**
 * crispo/llms/bedrock: the text handling around the Bedrock models. The
 * service itself is an oracle: what a model answers for a request is a
 * parameter, and the transport (retries, throttling, credentials) is not
 * modelled. A prompt is either a text or a list of chat messages.
 */
module Bedrock {
  import opened Wrappers
  import opened Text

  datatype Role = User | Assistant

  /** `{"role": ..., "content": ...}`. */
  datatype Message = Message(role: Role, content: string)

  /** `TYPE_PROMPT`: a text, or a list of chat messages. */
  datatype Prompt = TextPrompt(text: string) | ChatPrompt(messages: seq<Message>)

  /** A text with no leading whitespace. */
  predicate NoLeadingSpace(s: string)
  {
    s == [] || !IsSpace(s[0])
  }

  lemma LStripNoLeadingSpace(s: string)
    ensures NoLeadingSpace(LStrip(s))
    ensures |LStrip(s)| <= |s| && EndsWith(s, LStrip(s))
  {
  }

  // ---------------------------------------------------------------------
  // crispo/llms/bedrock/claude3.py

  /** The characters `lstrip("Human:")` removes: a set, not a prefix. */
  const HumanChars: set<char> := {'H', 'u', 'm', 'a', 'n', ':'}

  const HumanTag := "Human:"

  const AssistantTag := "Assistant:"

  /**
   * `get_input_msg_claude3` as written: the prompt is stripped, loses its
   * leading run of the characters of "Human:", is stripped again, and is
   * split into a user and an assistant part when it mentions "Assistant",
   * at the index `find("Assistant:")` returns, which is -1 when no colon
   * follows.
   */
  function InputMessagesAsWritten(prompt: string): (r: seq<Message>)
    ensures 1 <= |r| <= 2 && r[0].role == User
    ensures |r| == 2 ==> r[1].role == Assistant && r[1].content != [] && IsStripped(r[1].content)
  {
    var p := Strip(LStripChars(Strip(prompt), HumanChars));
    if Contains(p, "Assistant") then
      var i := Find(p, AssistantTag);
      var assistantPart := Strip(Drop(p, i + |AssistantTag|));
      [Message(User, Take(p, i))] + (if assistantPart != [] then [Message(Assistant, assistantPart)] else [])
    else [Message(User, p)]
  }

  /**
   * `BedrockClaude3.get_input_msg_claude3`, step by step: one user message,
   * then an assistant message only when the assistant part is non-empty.
   */
  method GetInputMsgClaude3(prompt: string) returns (msgs: seq<Message>)
    ensures msgs == InputMessagesAsWritten(prompt)
    ensures 1 <= |msgs| <= 2 && msgs[0].role == User
    ensures |msgs| == 2 ==> msgs[1].role == Assistant && msgs[1].content != [] && IsStripped(msgs[1].content)
  {
    var p := Strip(prompt);
    p := LStripChars(p, HumanChars);
    p := Strip(p);
    var assistantPart := "";
    if Contains(p, "Assistant") {
      var i := Find(p, AssistantTag);
      assistantPart := Strip(Drop(p, i + |AssistantTag|));
      p := Take(p, i);
    }
    msgs := [Message(User, p)];
    if assistantPart != [] {
      msgs := msgs + [Message(Assistant, assistantPart)];
    }
  }

  /**
   * As written, a prompt that mentions "Assistant" with no colon after it
   * is split at index -1: the user message loses its last character and
   * whatever follows the first nine characters becomes an assistant turn.
   */
  lemma AssistantWithoutColonSplits(prompt: string)
    requires var p := Strip(LStripChars(Strip(prompt), HumanChars));
      Contains(p, "Assistant") && !Contains(p, AssistantTag)
    ensures var p := Strip(LStripChars(Strip(prompt), HumanChars));
      |p| >= 9
      && InputMessagesAsWritten(prompt)
         == [Message(User, p[..|p| - 1])] + (if Strip(p[9..]) != [] then [Message(Assistant, Strip(p[9..]))] else [])
  {
    var p := Strip(LStripChars(Strip(prompt), HumanChars));
    FindIffContains(p, AssistantTag);
    ContainsLength(p, "Assistant");
    assert Find(p, AssistantTag) == -1;
    SlicesAtMinusOne(p);
  }

  /** Index -1 as a split point: the slice before it drops the last character, the one after the tag starts at 9. */
  lemma SlicesAtMinusOne(p: string)
    requires |p| >= 9
    ensures Drop(p, -1 + |AssistantTag|) == p[9..] && Take(p, -1) == p[..|p| - 1]
  {
  }

  /** `"Dear Assistant"` becomes "Dear Assistan" from the user and "stant" from the assistant. */
  lemma AssistantWithoutColonExample(p: string)
    requires p == "Dear Assistant"
    ensures InputMessagesAsWritten(p) == [Message(User, "Dear Assistan"), Message(Assistant, "stant")]
    ensures InputMessages(p) == [Message(User, p)]
  {
    DearAssistantFacts();
    DearAssistantPieces(p);
    WithoutColonTwoMessages(p, "Dear Assistan", "stant");
    NoTagOneMessage(p);
  }

  /** A normalised prompt with "Assistant" but not the tag, named by its two pieces. */
  lemma WithoutColonTwoMessages(p: string, user: string, assistant: string)
    requires Strip(LStripChars(Strip(p), HumanChars)) == p
    requires Contains(p, "Assistant") && !Contains(p, AssistantTag)
    requires p[..|p| - 1] == user && Strip(p[9..]) == assistant && assistant != []
    ensures InputMessagesAsWritten(p) == [Message(User, user), Message(Assistant, assistant)]
  {
    AssistantWithoutColonSplits(p);
  }

  lemma DearAssistantPieces(p: string)
    requires p == "Dear Assistant"
    ensures p[..|p| - 1] == "Dear Assistan" && Strip(p[9..]) == "stant" && Strip(p[9..]) != []
  {
    var q := p[9..];
    assert q == "stant";
    StripNoop(q);
  }

  /** Without "Assistant:" the intended messages are the whole normalised prompt from the user. */
  lemma NoTagOneMessage(prompt: string)
    requires !Contains(Normalised(prompt), AssistantTag)
    ensures InputMessages(prompt) == [Message(User, Normalised(prompt))]
  {
    FindIffContains(Normalised(prompt), AssistantTag);
  }

  lemma DearAssistantFacts()
    ensures Strip(LStripChars(Strip("Dear Assistant"), HumanChars)) == "Dear Assistant"
    ensures Normalised("Dear Assistant") == "Dear Assistant"
    ensures Contains("Dear Assistant", "Assistant") && !Contains("Dear Assistant", AssistantTag)
  {
    DearAssistantStripped();
    DearAssistantNormalised();
    DearAssistantMentions();
    DearAssistantNoTag();
  }

  lemma DearAssistantNoTag()
    ensures !Contains("Dear Assistant", AssistantTag)
  {
    ColonAbsent("Dear Assistant");
  }

  lemma DearAssistantStripped()
    ensures Strip("Dear Assistant") == "Dear Assistant"
    ensures LStripChars("Dear Assistant", HumanChars) == "Dear Assistant"
  {
    DearAssistantBlankFree();
    LStripCharsStops("Dear Assistant", HumanChars);
  }

  lemma DearAssistantBlankFree()
    ensures Strip("Dear Assistant") == "Dear Assistant"
  {
    StripNoop("Dear Assistant");
  }

  /** `lstrip(chars)` keeps a text that starts with another character. */
  lemma LStripCharsStops(s: string, chars: set<char>)
    requires s != [] && s[0] !in chars
    ensures LStripChars(s, chars) == s
  {
  }

  lemma DearAssistantNormalised()
    ensures Normalised("Dear Assistant") == "Dear Assistant"
  {
    var p := "Dear Assistant";
    StripNoop(p);
    assert !(HumanTag <= p) by {
      assert HumanTag[0] != p[0];
    }
  }

  lemma DearAssistantMentions()
    ensures Contains("Dear Assistant", "Assistant")
  {
    assert OccursAt("Dear Assistant", "Assistant", 5);
  }

  /** A text without a colon does not contain "Assistant:". */
  lemma ColonAbsent(p: string)
    requires forall i :: 0 <= i < |p| ==> p[i] != ':'
    ensures !Contains(p, AssistantTag)
  {
    if Contains(p, AssistantTag) {
      ContainsChar(p, AssistantTag, 9);
      ContainsCharIff(p, ':');
    }
  }

  /** As written, "manual check" loses its leading "manua", since each of those characters is in "Human:". */
  lemma HumanCharsExample(p: string)
    requires p == "manual check"
    ensures InputMessagesAsWritten(p) == [Message(User, "l check")]
    ensures InputMessages(p) == [Message(User, p)]
  {
    ManualCheckStripped(p);
    AbsentByLength("l check", "Assistant");
    ColonAbsent(p);
    FindIffContains(p, AssistantTag);
  }

  lemma ManualCheckStripped(p: string)
    requires p == "manual check"
    ensures Strip(LStripChars(Strip(p), HumanChars)) == "l check"
    ensures Normalised(p) == p
  {
    StripNoop(p);
    assert p == "manua" + "l check";
    LStripCharsRun("manua", "l check", HumanChars);
    StripNoop("l check");
    assert !(HumanTag <= p) by {
      assert HumanTag[0] != p[0];
    }
  }

  /** `lstrip(chars)` removes a leading run of characters of the set and stops at the first other one. */
  lemma {:induction false} LStripCharsRun(run: string, rest: string, chars: set<char>)
    requires forall i :: 0 <= i < |run| ==> run[i] in chars
    requires rest == [] || rest[0] !in chars
    ensures LStripChars(run + rest, chars) == rest
  {
    if run != [] {
      assert (run + rest)[1..] == run[1..] + rest;
      LStripCharsRun(run[1..], rest, chars);
    } else {
      assert run + rest == rest;
    }
  }

  /** A text shorter than `t`, or lacking one of its characters, does not contain it. */
  lemma AbsentByLength(s: string, t: string)
    requires |s| < |t|
    ensures !Contains(s, t)
  {
    if Contains(s, t) {
      ContainsLength(s, t);
    }
  }

  /** `removeprefix("Human:")`: the literal prefix only. */
  function WithoutHumanPrefix(p: string): (r: string)
  {
    if HumanTag <= p then p[|HumanTag|..] else p
  }

  /** The prompt stripped, without a leading "Human:", stripped again. */
  function Normalised(prompt: string): string
  {
    Strip(WithoutHumanPrefix(Strip(prompt)))
  }

  /**
   * The messages `get_input_msg_claude3` evidently means to build: the
   * "Human:" prefix removed as a prefix, and a split only where
   * "Assistant:" actually occurs.
   */
  function InputMessages(prompt: string): (r: seq<Message>)
    ensures 1 <= |r| <= 2 && r[0].role == User
    ensures |r| == 2 ==> r[1].role == Assistant && r[1].content != []
  {
    var p := Normalised(prompt);
    var i := Find(p, AssistantTag);
    if i < 0 then [Message(User, p)]
    else
      var assistantPart := Strip(p[i + |AssistantTag|..]);
      [Message(User, p[..i])] + (if assistantPart != [] then [Message(Assistant, assistantPart)] else [])
  }

  /**
   * A prompt without "Assistant:" is one user message holding all of it; one
   * with it is split at its first occurrence, the user part, the tag and the
   * rest making up the whole, and the assistant turn is the rest stripped
   * when that is non-empty.
   */
  lemma InputMessagesMeaning(prompt: string)
    ensures var p := Normalised(prompt);
      var r := InputMessages(prompt);
      (!Contains(p, AssistantTag) ==> r == [Message(User, p)])
      && (Contains(p, AssistantTag) ==>
            var rest := p[|r[0].content| + |AssistantTag|..];
            p == r[0].content + AssistantTag + rest
            && !Contains(r[0].content + AssistantTag[..|AssistantTag| - 1], AssistantTag)
            && (|r| == 2 <==> Strip(rest) != [])
            && (|r| == 2 ==> r[1].content == Strip(rest)))
  {
    if Contains(Normalised(prompt), AssistantTag) {
      TaggedTwoParts(prompt);
    } else {
      NoTagOneMessage(prompt);
    }
  }

  /** With "Assistant:" the user message is what precedes its first occurrence. */
  lemma TaggedTwoParts(prompt: string)
    requires Contains(Normalised(prompt), AssistantTag)
    ensures var p := Normalised(prompt);
      var r := InputMessages(prompt);
      var rest := p[|r[0].content| + |AssistantTag|..];
      p == r[0].content + AssistantTag + rest
      && !Contains(r[0].content + AssistantTag[..|AssistantTag| - 1], AssistantTag)
      && (|r| == 2 <==> Strip(rest) != [])
      && (|r| == 2 ==> r[1].content == Strip(rest))
  {
    var p := Normalised(prompt);
    FindIffContains(p, AssistantTag);
    var i := Find(p, AssistantTag);
    assert InputMessages(prompt)[0].content == p[..i];
    FirstTagSplit(p, i);
  }

  /** Splitting at the first "Assistant:" leaves none before it, not even one that ends inside it. */
  lemma FirstTagSplit(p: string, i: nat)
    requires OccursAt(p, AssistantTag, i)
    requires forall j :: 0 <= j < i ==> !OccursAt(p, AssistantTag, j)
    ensures p == p[..i] + AssistantTag + p[i + |AssistantTag|..]
    ensures !Contains(p[..i] + AssistantTag[..|AssistantTag| - 1], AssistantTag)
  {
    assert p[i..i + |AssistantTag|] == AssistantTag;
    assert p == p[..i] + p[i..i + |AssistantTag|] + p[i + |AssistantTag|..];
    var w := p[..i] + AssistantTag[..|AssistantTag| - 1];
    assert w == p[..i + |AssistantTag| - 1];
    forall j | 0 <= j <= |w|
      ensures !OccursAt(w, AssistantTag, j)
    {
      if j + |AssistantTag| <= |w| {
        assert w[j..j + |AssistantTag|] == p[j..j + |AssistantTag|];
        assert !OccursAt(p, AssistantTag, j);
      }
    }
  }

  /** Only a literal leading "Human:" is removed; a prompt without it keeps every character but surrounding blanks. */
  lemma NormalisedMeaning(prompt: string)
    ensures !(HumanTag <= Strip(prompt)) ==> Normalised(prompt) == Strip(prompt)
    ensures HumanTag <= Strip(prompt) ==> Normalised(prompt) == Strip(Strip(prompt)[|HumanTag|..])
  {
    StripIdempotent(prompt);
  }

  /** `parse_response`: the text of the first content item, or "" when there is none. */
  function ParseClaude3Response(content: seq<string>): (r: string)
    ensures content == [] ==> r == ""
    ensures content != [] ==> r == content[0]
  {
    if content == [] then "" else content[0]
  }

  /** The request body `BedrockClaude3.build_payload` sends. */
  datatype Claude3Payload = Claude3Payload(
    messages: seq<Message>, maxTokens: int, temperature: real, topP: real, topK: int,
    stopSequences: seq<string>, anthropicVersion: string)

  const AnthropicVersion := "bedrock-2023-05-31"

  /**
   * `BedrockClaude3.build_payload`: a text prompt becomes its messages through
   * `get_input_msg_claude3` as written, a list of messages is sent as it is;
   * the sampling settings are copied.
   */
  function BuildClaude3Payload(prompt: Prompt, maxNewTokens: int, temperature: real, topP: real, topK: int, stopSequences: seq<string>): (r: Claude3Payload)
    ensures prompt.ChatPrompt? ==> r.messages == prompt.messages
    ensures prompt.TextPrompt? ==> r.messages == InputMessagesAsWritten(prompt.text)
    ensures prompt.TextPrompt? ==> 1 <= |r.messages| <= 2 && r.messages[0].role == User
    ensures r.maxTokens == maxNewTokens && r.temperature == temperature && r.topP == topP && r.topK == topK
    ensures r.stopSequences == stopSequences && r.anthropicVersion == AnthropicVersion
  {
    Claude3Payload(
      if prompt.TextPrompt? then InputMessagesAsWritten(prompt.text) else prompt.messages,
      maxNewTokens, temperature, topP, topK, stopSequences, AnthropicVersion)
  }

  /** The payload for "Dear Assistant" carries the split the conversion as written makes. */
  lemma PayloadDearAssistant(maxNewTokens: int, temperature: real, topP: real, topK: int, stopSequences: seq<string>)
    ensures BuildClaude3Payload(TextPrompt("Dear Assistant"), maxNewTokens, temperature, topP, topK, stopSequences).messages
            == [Message(User, "Dear Assistan"), Message(Assistant, "stant")]
  {
    AssistantWithoutColonExample("Dear Assistant");
  }

  /** `Claude3.generate`: the service's answer without leading whitespace. */
  function Claude3Generate(service: Prompt -> string, prompt: Prompt): (r: string)
    ensures NoLeadingSpace(r) && EndsWith(service(prompt), r)
  {
    LStripNoLeadingSpace(service(prompt));
    LStrip(service(prompt))
  }

  // ---------------------------------------------------------------------
  // crispo/llms/bedrock/claude2.py

  const HumanTurn := "\n\nHuman: "

  const AssistantTurn := "\n\nAssistant: "

  /** The text `ClaudeInstant.generate` sends: the turn markers added where missing, the human one first. */
  function Claude2Text(text: string): string
  {
    var t := if HumanTurn <= text then text else HumanTurn + text;
    if EndsWith(t, AssistantTurn) then t else t + AssistantTurn
  }

  /** The prompt `ClaudeInstant.generate` sends: only a text prompt is wrapped. */
  function Claude2Prompt(prompt: Prompt): Prompt
  {
    if prompt.TextPrompt? then TextPrompt(Claude2Text(prompt.text)) else prompt
  }

  /**
   * `ClaudeInstant.generate`: the prompt gains the human turn marker unless
   * it starts with it and the assistant turn marker unless it ends with
   * it, and the answer loses its leading whitespace.
   */
  method ClaudeInstantGenerate(service: Prompt -> string, prompt: Prompt) returns (generation: string)
    ensures generation == LStrip(service(Claude2Prompt(prompt)))
    ensures NoLeadingSpace(generation)
  {
    var p := prompt;
    if p.TextPrompt? {
      if !(HumanTurn <= p.text) {
        p := TextPrompt(HumanTurn + p.text);
      }
      if !EndsWith(p.text, AssistantTurn) {
        p := TextPrompt(p.text + AssistantTurn);
      }
    }
    generation := service(p);
    generation := LStrip(generation);
    LStripNoLeadingSpace(service(p));
  }

  /**
   * The sent text starts with the human marker, ends with the assistant
   * marker and holds the prompt; a prompt that has both is sent unchanged,
   * so wrapping twice is wrapping once.
   */
  lemma Claude2TextMeaning(text: string)
    ensures var t := Claude2Text(text);
      HumanTurn <= t && EndsWith(t, AssistantTurn) && Contains(t, text)
    ensures HumanTurn <= text && EndsWith(text, AssistantTurn) ==> Claude2Text(text) == text
    ensures Claude2Text(Claude2Text(text)) == Claude2Text(text)
  {
    var t := if HumanTurn <= text then text else HumanTurn + text;
    ContainsSelf(text);
    if !(HumanTurn <= text) {
      ContainsRight(HumanTurn, text, text);
    }
    assert HumanTurn <= t;
    if !EndsWith(t, AssistantTurn) {
      EndsWithAppend(t, AssistantTurn);
      ContainsLeft(t, AssistantTurn, text);
      assert (t + AssistantTurn)[..|HumanTurn|] == t[..|HumanTurn|];
    }
  }

  /** A list prompt reaches the service unchanged. */
  lemma Claude2ChatUnchanged(messages: seq<Message>)
    ensures Claude2Prompt(ChatPrompt(messages)) == ChatPrompt(messages)
  {
  }

  // ---------------------------------------------------------------------
  // crispo/llms/bedrock/mistral.py

  /** The request body `MistralWrapper.build_payload` sends: no token limit, no top-k. */
  datatype MistralPayload = MistralPayload(prompt: string, temperature: real, topP: real)

  const InstOpen := "<s>[INST] "

  const InstClose := "\n[/INST]"

  /** `MistralWrapper.build_payload` for a text prompt: the prompt inside the instruction markers. */
  function BuildMistralPayload(prompt: string, temperature: real, topP: real): (r: MistralPayload)
    ensures InstOpen <= r.prompt && EndsWith(r.prompt, InstClose)
    ensures |r.prompt| == |InstOpen| + |prompt| + |InstClose|
    ensures r.prompt[|InstOpen|..|r.prompt| - |InstClose|] == prompt
    ensures r.temperature == temperature && r.topP == topP
  {
    var t := InstOpen + prompt + InstClose;
    assert t[|t| - |InstClose|..] == InstClose;
    MistralPayload(t, temperature, topP)
  }

  /**
   * `MistralWrapper.parse_response`: the first output's text without
   * leading whitespace; no output raises `IndexError`, here `None`.
   */
  function ParseMistralResponse(outputs: seq<string>): (r: Option<string>)
    ensures r.None? <==> outputs == []
    ensures r.Some? ==> NoLeadingSpace(r.value) && EndsWith(outputs[0], r.value)
  {
    if outputs == [] then None
    else
      LStripNoLeadingSpace(outputs[0]);
      Some(LStrip(outputs[0]))
  }

  /** What the wrapped service call ended with: an exception, something that is not text, or a text. */
  datatype Outcome = Raised | NotText | Generated(text: string)

  predicate EmptyPrompt(prompt: Prompt)
  {
    match prompt
    case TextPrompt(t) => t == []
    case ChatPrompt(m) => m == []
  }

  /**
   * `BedrockMistral.generate`: an empty prompt, an exception or an answer
   * that is not text all give ""; otherwise the answer without leading
   * whitespace.
   */
  method MistralGenerate(service: Prompt -> Outcome, prompt: Prompt) returns (generation: string)
    ensures EmptyPrompt(prompt) ==> generation == ""
    ensures !EmptyPrompt(prompt) && !service(prompt).Generated? ==> generation == ""
    ensures !EmptyPrompt(prompt) && service(prompt).Generated? ==> generation == LStrip(service(prompt).text)
    ensures NoLeadingSpace(generation)
  {
    if EmptyPrompt(prompt) {
      return "";
    }
    var outcome := service(prompt);
    if outcome.Raised? {
      return "";
    }
    if !outcome.Generated? {
      return "";
    }
    generation := LStrip(outcome.text);
    LStripNoLeadingSpace(outcome.text);
  }
}
