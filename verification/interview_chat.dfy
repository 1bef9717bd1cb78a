/** The chat side of the interview page
    (src/components/InterviewPage/InterviewPage.jsx): sending a message, taking
    in the interviewer's reply, showing a socket error, and the label of the
    current phase. The socket is reduced to whether it is connected and what is
    emitted on it; timestamps and message ids are a `now` parameter. */
module InterviewChat {
  import opened Wrappers
  import opened Records
  import opened Text

  /** One message of the transcript. */
  datatype ChatMessage = ChatMessage(id: int, speaker: Speaker, message: string, phase: Option<string>)

  /** The page state the chat handlers read and write. `phase` is None after a
      reply that carried no phase. */
  datatype Chat = Chat(
    connected: bool,
    sessionId: Option<string>,
    messages: seq<ChatMessage>,
    current: string,
    aiTyping: bool,
    phase: Option<string>,
    error: string)

  const InitialChat := Chat(false, None, [], "", false, Some("introduction"), "")

  /** The `user-message` payload. */
  datatype Outgoing = UserMessage(message: string, sessionId: Option<string>)

  /** `sendMessage`: text that is blank after trimming, or no socket, does
      nothing. Otherwise one user message with the trimmed text and the current
      phase is appended, the input is cleared, the interviewer is shown typing,
      and the trimmed text is emitted with the page's session id. */
  function SendMessage(c: Chat, text: string, now: int): (r: (Chat, Option<Outgoing>))
    ensures IsBlank(text) || !c.connected ==> r == (c, None)
    ensures r.1.Some? <==> !IsBlank(text) && c.connected
    ensures r.1.Some? ==>
              && r.0 == c.(messages := c.messages + [ChatMessage(now, UserSpeaker, Trim(text), c.phase)],
                           current := "", aiTyping := true)
              && r.1.value == UserMessage(Trim(text), c.sessionId)
              && r.1.value.message != ""
  {
    if Trim(text) == "" || !c.connected then (c, None)
    else
      var t := Trim(text);
      (c.(messages := c.messages + [ChatMessage(now, UserSpeaker, t, c.phase)], current := "", aiTyping := true),
       Some(UserMessage(t, c.sessionId)))
  }

  /** `handleSpeechResult` checks the same guard again before sending, so it is
      the same as sending the transcript directly. */
  function SpeechResult(c: Chat, transcript: string, now: int): (r: (Chat, Option<Outgoing>))
    ensures r == SendMessage(c, transcript, now)
  {
    if Trim(transcript) != "" then SendMessage(c, transcript, now) else (c, None)
  }

  /** An `ai-response` once its typing delay has passed: one interviewer message
      is appended, the phase becomes the reply's phase, typing stops. */
  function AiResponse(c: Chat, message: string, phase: Option<string>, now: int): (r: Chat)
    ensures |r.messages| == |c.messages| + 1 && r.messages[..|c.messages|] == c.messages
    ensures r.messages[|c.messages|] == ChatMessage(now, AiSpeaker, message, phase)
    ensures r.phase == phase && !r.aiTyping
    ensures r.sessionId == c.sessionId && r.connected == c.connected
  {
    c.(messages := c.messages + [ChatMessage(now, AiSpeaker, message, phase)], phase := phase, aiTyping := false)
  }

  /** A socket `error` event: its message is shown and typing stops. */
  function SocketError(c: Chat, message: string): (r: Chat)
    ensures r.error == message && !r.aiTyping
    ensures r.messages == c.messages && r.sessionId == c.sessionId
  {
    c.(error := message, aiTyping := false)
  }

  /** Everything that can happen to the chat. */
  datatype ChatEvent =
    | Connect
    | Send(text: string, now: int)
    | Speech(transcript: string, now: int)
    | Reply(message: string, phase: Option<string>, now: int)
    | Failure(message: string)

  function Apply(c: Chat, e: ChatEvent): (Chat, Option<Outgoing>) {
    match e
    case Connect => (c.(connected := true), None)
    case Send(t, now) => SendMessage(c, t, now)
    case Speech(t, now) => SpeechResult(c, t, now)
    case Reply(m, p, now) => (AiResponse(c, m, p, now), None)
    case Failure(m) => (SocketError(c, m), None)
  }

  /** The chat after a run of events, with everything emitted on the way. */
  function RunChat(c: Chat, es: seq<ChatEvent>): (Chat, seq<Outgoing>)
    decreases |es|
  {
    if |es| == 0 then (c, [])
    else
      var (c1, out) := Apply(c, es[0]);
      var (c2, rest) := RunChat(c1, es[1..]);
      (c2, (if out.Some? then [out.value] else []) + rest)
  }

  /** No handler ever stores a session id, so from the initial page every
      emitted message carries none. */
  lemma {:induction false} SessionIdNeverSet(c: Chat, es: seq<ChatEvent>)
    requires c.sessionId.None?
    ensures RunChat(c, es).0.sessionId.None?
    ensures forall k :: 0 <= k < |RunChat(c, es).1| ==> RunChat(c, es).1[k].sessionId.None?
    decreases |es|
  {
    if |es| > 0 {
      var (c1, out) := Apply(c, es[0]);
      SessionIdNeverSet(c1, es[1..]);
    }
  }

  /** What the header shows for a phase. */
  datatype PhaseDisplay =
    | Label(text: string, color: string)
    | Inherited(key: string) // the lookup hit an `Object.prototype` member: a value with no text

  /** Keys every plain object inherits from `Object.prototype`. */
  const PrototypeKeys: set<string> := {
    "constructor", "hasOwnProperty", "isPrototypeOf", "propertyIsEnumerable",
    "toLocaleString", "toString", "valueOf", "__proto__",
    "__defineGetter__", "__defineSetter__", "__lookupGetter__", "__lookupSetter__"}

  const KnownPhases: set<string> := {
    "introduction", "technical-basic", "technical-intermediate", "technical-advanced", "behavioral", "closing"}

  const IntroductionLabel := Label("Introduction", "#00F2C3")

  /** The property key a phase value is looked up under: a missing phase
      becomes the string "undefined". */
  function PhaseKey(phase: Option<string>): string {
    match phase
    case None => "undefined"
    case Some(p) => p
  }

  /** `getPhaseDisplay`: the six known phases have their own labels; any other
      key falls back to the introduction label, except a key the object
      inherits, whose (truthy) inherited value is returned instead. */
  function PhaseDisplayOf(phase: Option<string>): (r: PhaseDisplay)
    ensures PhaseKey(phase) in KnownPhases ==> r.Label? && (r == IntroductionLabel <==> phase == Some("introduction"))
    ensures PhaseKey(phase) !in KnownPhases && PhaseKey(phase) !in PrototypeKeys ==> r == IntroductionLabel
    ensures r.Inherited? <==> PhaseKey(phase) in PrototypeKeys
  {
    match PhaseKey(phase)
    case "introduction" => IntroductionLabel
    case "technical-basic" => Label("Basic Questions", "#4CAF50")
    case "technical-intermediate" => Label("Technical Skills", "#FFB84D")
    case "technical-advanced" => Label("Advanced Technical", "#FF9800")
    case "behavioral" => Label("Behavioral Questions", "#FF6B9D")
    case "closing" => Label("Interview Closing", "#8B5CF6")
    case k => if k in PrototypeKeys then Inherited(k) else IntroductionLabel
  }

  /** The six known phases are told apart by their labels. */
  lemma KnownPhasesDistinct(p: string, q: string)
    requires p in KnownPhases && q in KnownPhases && p != q
    ensures PhaseDisplayOf(Some(p)) != PhaseDisplayOf(Some(q))
  {
  }
}
