/** The lab assistant's chat panel: a log of messages, the text being
    typed, and a flag for a request in flight. Sending and receiving the
    reply are separate events; the reply text is whatever the text service
    returned, including its fallback messages. */
module Assistant {
  import opened Types

  /** The whitespace and line terminators that ECMAScript's String trim
      removes. */
  predicate IsWhitespace(c: char)
  {
    || c == '\t' || c == '\n' || c == '\U{000B}' || c == '\U{000C}' || c == '\r'
    || c == ' ' || c == '\U{00A0}' || c == '\U{1680}'
    || ('\U{2000}' <= c <= '\U{200A}')
    || c == '\U{2028}' || c == '\U{2029}' || c == '\U{202F}' || c == '\U{205F}'
    || c == '\U{3000}' || c == '\U{FEFF}'
  }

  /** Every character of s is whitespace. */
  predicate IsBlank(s: string)
  {
    forall i :: 0 <= i < |s| ==> IsWhitespace(s[i])
  }

  /** s without its leading whitespace: a suffix of s that is empty or
      starts with a non-whitespace character, and everything cut off is
      whitespace. */
  function TrimStart(s: string): (r: string)
    ensures |r| <= |s| && r == s[|s| - |r|..]
    ensures r == [] || !IsWhitespace(r[0])
    ensures IsBlank(s[..|s| - |r|])
    decreases |s|
  {
    if |s| > 0 && IsWhitespace(s[0]) then
      var r := TrimStart(s[1..]);
      assert s[1..][|s[1..]| - |r|..] == s[|s| - |r|..];
      assert s[1..][..|s| - 1 - |r|] == s[1..|s| - |r|];
      r
    else
      s
  }

  /** s without its trailing whitespace: a prefix of s that is empty or
      ends with a non-whitespace character, and everything cut off is
      whitespace. */
  function TrimEnd(s: string): (r: string)
    ensures |r| <= |s| && r == s[..|r|]
    ensures r == [] || !IsWhitespace(r[|r| - 1])
    ensures IsBlank(s[|r|..])
    decreases |s|
  {
    if |s| > 0 && IsWhitespace(s[|s| - 1]) then
      var r := TrimEnd(s[..|s| - 1]);
      assert s[..|s| - 1][..|r|] == s[..|r|];
      assert forall i :: |r| <= i < |s| - 1 ==> s[..|s| - 1][|r|..][i - |r|] == s[i];
      r
    else
      s
  }

  /** r is s with some whitespace cut from its front and some from its
      back: r occurs in s at offset i, and everything around it is
      whitespace. */
  ghost predicate TrimmedAt(r: string, s: string, i: nat)
  {
    i + |r| <= |s| && r == s[i..i + |r|] && IsBlank(s[..i]) && IsBlank(s[i + |r|..])
  }

  /** ECMAScript's String trim: whitespace removed from both ends. The
      result is a slice of s with only whitespace around it, and it neither
      starts nor ends with whitespace. */
  function Trim(s: string): (r: string)
    ensures TrimmedAt(r, s, |s| - |TrimStart(s)|)
    ensures r == [] || (!IsWhitespace(r[0]) && !IsWhitespace(r[|r| - 1]))
  {
    var t := TrimStart(s);
    var r := TrimEnd(t);
    var i := |s| - |t|;
    assert t == s[i..];
    assert s[i..i + |r|] == t[..|r|];
    assert s[i + |r|..] == t[|r|..];
    assert IsBlank(s[..i]) && IsBlank(t[|r|..]);
    r
  }

  /** Trimming leaves nothing exactly when the text is all whitespace. */
  lemma TrimEmptyIffBlank(s: string)
    ensures Trim(s) == [] <==> IsBlank(s)
  {
  }

  /** The panel's state. */
  datatype ChatState = ChatState(messages: seq<ChatMessage>, input: string, isLoading: bool)

  /** The assistant's opening line. */
  const Greeting: string :=
    "Hello! I'm your Physics Lab Assistant. I can help you understand waves, calculate wavelength, or even help with the Unity code. What's on your mind?"

  /** The panel when the page loads: one greeting from the model, nothing
      typed, nothing in flight. */
  function InitialChat(): (r: ChatState)
    ensures r.messages == [ChatMessage(Model, Greeting)]
    ensures r.input == [] && !r.isLoading
  {
    ChatState([ChatMessage(Model, Greeting)], "", false)
  }

  /** Typing in the message field. */
  function SetInput(c: ChatState, text: string): (r: ChatState)
    ensures r.input == text
    ensures r.messages == c.messages && r.isLoading == c.isLoading
  {
    c.(input := text)
  }

  /** The send button is enabled when nothing is in flight and the input has
      some non-whitespace character. */
  predicate SendEnabled(c: ChatState)
    ensures SendEnabled(c) <==> !c.isLoading && !IsBlank(c.input)
  {
    TrimEmptyIffBlank(c.input);
    !(c.isLoading || Trim(c.input) == [])
  }

  /** The send handler up to its await: blank input or a request in flight
      makes it a no-op; otherwise the untrimmed input is logged as a user
      message, the field is cleared and the request is marked in flight. */
  function Send(c: ChatState): (r: ChatState)
    ensures IsBlank(c.input) || c.isLoading ==> r == c
    ensures !IsBlank(c.input) && !c.isLoading ==>
              && r.messages == c.messages + [ChatMessage(User, c.input)]
              && r.input == []
              && r.isLoading
  {
    TrimEmptyIffBlank(c.input);
    if Trim(c.input) == [] || c.isLoading then c
    else ChatState(c.messages + [ChatMessage(User, c.input)], "", true)
  }

  /** The send handler after its await: the returned text is logged as a
      model message and the request is no longer in flight. The input field
      is left as it is. */
  function Reply(c: ChatState, text: string): (r: ChatState)
    ensures r.messages == c.messages + [ChatMessage(Model, text)]
    ensures !r.isLoading
    ensures r.input == c.input
  {
    c.(messages := c.messages + [ChatMessage(Model, text)], isLoading := false)
  }

  /** The button's enable condition is exactly the handler's guard: a send
      changes the panel if and only if the button is enabled. */
  lemma SendEnabledMatchesGuard(c: ChatState)
    ensures SendEnabled(c) <==> Send(c) != c
  {
    TrimEmptyIffBlank(c.input);
    if SendEnabled(c) {
      assert |Send(c).messages| == |c.messages| + 1;
    }
  }

  /** The events the panel reacts to. */
  datatype ChatEvent = Type(text: string) | Submit | Response(text: string)

  /** The effect of one event. */
  function ChatStep(c: ChatState, e: ChatEvent): ChatState
  {
    match e
    case Type(t) => SetInput(c, t)
    case Submit => Send(c)
    case Response(t) => Reply(c, t)
  }

  /** The effect of a sequence of events, first to last. */
  function RunChat(c: ChatState, es: seq<ChatEvent>): ChatState
    decreases |es|
  {
    if es == [] then c else RunChat(ChatStep(c, es[0]), es[1..])
  }

  /** The log is append-only: whatever happens, the earlier log is a prefix
      of the later one, so the greeting stays first forever. */
  lemma {:induction false} LogAppendOnly(c: ChatState, es: seq<ChatEvent>)
    ensures |c.messages| <= |RunChat(c, es).messages|
    ensures c.messages == RunChat(c, es).messages[..|c.messages|]
    decreases |es|
  {
    if es != [] {
      var c' := ChatStep(c, es[0]);
      assert c.messages == c'.messages[..|c.messages|];
      LogAppendOnly(c', es[1..]);
      var m := RunChat(c, es).messages;
      assert m[..|c'.messages|][..|c.messages|] == m[..|c.messages|];
    }
  }

  /** Starting from the greeting, the first message is the greeting after
      any sequence of events. */
  lemma GreetingStaysFirst(es: seq<ChatEvent>)
    ensures |RunChat(InitialChat(), es).messages| >= 1
    ensures RunChat(InitialChat(), es).messages[0] == ChatMessage(Model, Greeting)
  {
    LogAppendOnly(InitialChat(), es);
    assert RunChat(InitialChat(), es).messages[..1][0] == RunChat(InitialChat(), es).messages[0];
  }
}
