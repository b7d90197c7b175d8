/**
 * What the chat widget (static/js/chatbot.js) and the full-page chat
 * (static/js/chatbot-fullpage.js) share: the message record, the canned
 * fallback answers and how a message is matched against them, the outcome of
 * the backend call, the error text chosen when the call fails, and the bot
 * replies one user message produces.
 */
module Chat {
  import opened Wrappers
  import opened Strings

  datatype Sender = User | Bot

  /** One entry of the conversation, as kept in memory and in local storage. */
  datatype Message = Message(content: string, sender: Sender, timestamp: int)

  /** What local storage held under the key when the page loaded. */
  datatype StoredChat =
    | Missing                       // no entry, or an empty string
    | Parsed(messages: seq<Message>)
    | Corrupt                       // JSON.parse threw; the error is caught

  const DefaultKey: string := "default"

  /** The canned answers of the fallback table. */
  datatype Canned =
    | Greeting | Welcome | AboutAI | AboutQuantum | AboutLearning | AboutSpace | AboutModel | ReadyToHelp | General

  /** The fallback table: keys in the order the object literal lists them (its iteration order). */
  const FallbackTable: seq<(string, Canned)> := [
    ("hi", Greeting),
    ("hello", Welcome),
    ("what is ai", AboutAI),
    ("tell me about quantum computing", AboutQuantum),
    ("what is machine learning", AboutLearning),
    ("space exploration", AboutSpace),
    ("which model are you", AboutModel),
    ("please say something", ReadyToHelp),
    (DefaultKey, General)
  ]

  /** The text of each canned answer. */
  function CannedText(c: Canned): string
  {
    match c
    case Greeting => "Hello! Welcome to our Technology & Science blog. How can I help you today?"
    case Welcome => "Hi there! I'm your AI assistant for tech and science questions. What would you like to know?"
    case AboutAI => "AI, or Artificial Intelligence, refers to machines performing tasks that typically require human intelligence. It includes machine learning, natural language processing, computer vision, and more."
    case AboutQuantum => "Quantum computing uses quantum mechanics principles to process information. Unlike classical computers that use bits (0s and 1s), quantum computers use quantum bits or qubits that can exist in multiple states simultaneously."
    case AboutLearning => "Machine learning is a subset of AI where algorithms learn patterns from data without being explicitly programmed. It includes supervised learning, unsupervised learning, and reinforcement learning."
    case AboutSpace => "Space exploration involves the discovery and exploration of celestial structures using aerospace technology. NASA, SpaceX, and other organizations are actively working on missions to Mars, the Moon, and beyond."
    case AboutModel => "I'm an AI assistant specialized in technology and science topics. I provide accurate, helpful information about AI, programming, quantum computing, space exploration, and scientific discoveries!"
    case ReadyToHelp => "I'm here and ready to help! Ask me anything about technology, science, AI, programming, or space exploration. What interests you most?"
    case General => "I'm here to help you with questions about technology and science. Feel free to ask me anything about AI, quantum computing, space exploration, programming, or scientific discoveries!"
  }

  const FallbackNote: string := "💡 Note: This response is from our fallback system. The AI API may be temporarily unavailable."

  const GenericError: string := "❌ Sorry, I encountered an error connecting to the AI service. Please try again later."
  const AuthError: string := "❌ Authentication error with AI service. Please check the API key configuration."
  const RateError: string := "❌ AI service is rate-limited. Please wait a moment and try again."
  const ServerError: string := "❌ AI service server error. Please try again in a few minutes."
  const NetworkErrorText: string := "❌ Network connection error. Please check your internet connection."

  /** The form a message is matched in: lower-cased, then trimmed. */
  function Normalise(message: string): string
  {
    JsTrim(Lower(message))
  }

  /** A key that matches inside a message: any key but 'default' that the message contains. */
  predicate IsPartial(key: string, lower: string)
  {
    key != DefaultKey && Contains(lower, key)
  }

  /** The index of the first entry at or after `i` whose key is `key`. */
  function LookupFrom(table: seq<(string, Canned)>, key: string, i: nat): (r: Option<nat>)
    requires i <= |table|
    ensures r.Some? ==> i <= r.value < |table| && table[r.value].0 == key
    ensures r.None? ==> forall j :: i <= j < |table| ==> table[j].0 != key
    decreases |table| - i
  {
    if i == |table| then None
    else if table[i].0 == key then Some(i)
    else LookupFrom(table, key, i + 1)
  }

  /** The index of the first entry at or after `i` whose key matches inside `lower`. */
  function PartialFrom(table: seq<(string, Canned)>, lower: string, i: nat): (r: Option<nat>)
    requires i <= |table|
    ensures r.Some? ==> i <= r.value < |table| && IsPartial(table[r.value].0, lower)
    ensures r.Some? ==> forall j :: i <= j < r.value ==> !IsPartial(table[j].0, lower)
    ensures r.None? ==> forall j :: i <= j < |table| ==> !IsPartial(table[j].0, lower)
    decreases |table| - i
  {
    if i == |table| then None
    else if IsPartial(table[i].0, lower) then Some(i)
    else PartialFrom(table, lower, i + 1)
  }

  /**
   * `getFallbackResponse` over a table: the entry whose key is the whole
   * normalised message (including 'default'; every answer is a non-empty, so
   * truthy, string); otherwise the first entry, in table order, whose key
   * other than 'default' occurs in the message; otherwise none.
   */
  function FallbackIn(table: seq<(string, Canned)>, lower: string): Option<Canned>
  {
    match LookupFrom(table, lower, 0)
    case Some(i) => Some(table[i].1)
    case None =>
      match PartialFrom(table, lower, 0)
      case Some(k) => Some(table[k].1)
      case None => None
  }

  /** There is no canned answer iff no key equals the message and no key but 'default' occurs in it. */
  lemma NoFallbackIff(table: seq<(string, Canned)>, lower: string)
    ensures FallbackIn(table, lower).None? <==>
              forall j :: 0 <= j < |table| ==> table[j].0 != lower && !IsPartial(table[j].0, lower)
  {
    var exact := LookupFrom(table, lower, 0);
    var partial := PartialFrom(table, lower, 0);
  }

  /** The canned answer for a message, looked up in its normalised form. */
  function Fallback(message: string): (r: Option<Canned>)
    ensures r.None? <==> forall j :: 0 <= j < |FallbackTable| ==>
                          FallbackTable[j].0 != Normalise(message) && !IsPartial(FallbackTable[j].0, Normalise(message))
  {
    NoFallbackIff(FallbackTable, Normalise(message));
    FallbackIn(FallbackTable, Normalise(message))
  }

  /** The table's keys are distinct, so the exact lookup is unambiguous. */
  lemma FallbackKeysDistinct()
    ensures forall i, j :: 0 <= i < j < |FallbackTable| ==> FallbackTable[i].0 != FallbackTable[j].0
  {
  }

  /**
   * In a table with distinct keys the exact match wins over the partial scan,
   * and a message equal to a key gets that key's answer, 'default' included.
   */
  lemma ExactMatchWins(table: seq<(string, Canned)>, lower: string, i: nat)
    requires forall a, b :: 0 <= a < b < |table| ==> table[a].0 != table[b].0
    requires i < |table| && lower == table[i].0
    ensures FallbackIn(table, lower) == Some(table[i].1)
  {
    var r := LookupFrom(table, lower, 0);
    assert r.Some?;
  }

  /** A message that normalises to a key of the fallback table gets that key's answer. */
  lemma ExactFallback(message: string, i: nat)
    requires i < |FallbackTable| && Normalise(message) == FallbackTable[i].0
    ensures Fallback(message) == Some(FallbackTable[i].1)
  {
    FallbackKeysDistinct();
    ExactMatchWins(FallbackTable, Normalise(message), i);
  }

  /**
   * Without an exact match the answer is that of the first matching key, so a
   * message containing 'hi' anywhere (as in 'this') gets the greeting.
   */
  lemma PartialMatchFirst(table: seq<(string, Canned)>, lower: string, k: nat)
    requires forall j :: 0 <= j < |table| ==> table[j].0 != lower
    requires k < |table| && IsPartial(table[k].0, lower)
    requires forall j :: 0 <= j < k ==> !IsPartial(table[j].0, lower)
    ensures FallbackIn(table, lower) == Some(table[k].1)
  {
    var p := PartialFrom(table, lower, 0);
    assert p.Some?;
  }

  /** The loop of `getFallbackResponse`: an exact lookup, then a scan of the entries in order. */
  method GetFallbackResponse(message: string) returns (r: Option<Canned>)
    ensures r == Fallback(message)
  {
    var lower := Normalise(message);
    r := ScanTable(FallbackTable, lower);
  }

  method ScanTable(table: seq<(string, Canned)>, lower: string) returns (r: Option<Canned>)
    ensures r == FallbackIn(table, lower)
  {
    var exact := LookupFrom(table, lower, 0);
    if exact.Some? {
      return Some(table[exact.value].1);
    }
    var i := 0;
    while i < |table|
      invariant 0 <= i <= |table|
      invariant PartialFrom(table, lower, 0) == PartialFrom(table, lower, i)
    {
      var (key, response) := table[i];
      if key != DefaultKey && Contains(lower, key) {
        return Some(response);
      }
      i := i + 1;
    }
    return None;
  }

  /**
   * The error text shown when no fallback applies, chosen by the first of the
   * status codes 401, 429, 500, or a browser network failure, that the error
   * message mentions.
   */
  function ErrorText(errorMessage: string): (t: string)
    ensures t in {GenericError, AuthError, RateError, ServerError, NetworkErrorText}
    ensures t == GenericError <==>
              !Contains(errorMessage, "401") && !Contains(errorMessage, "429") && !Contains(errorMessage, "500")
              && !Contains(errorMessage, "NetworkError") && !Contains(errorMessage, "Failed to fetch")
  {
    if Contains(errorMessage, "401") then AuthError
    else if Contains(errorMessage, "429") then RateError
    else if Contains(errorMessage, "500") then ServerError
    else if Contains(errorMessage, "NetworkError") || Contains(errorMessage, "Failed to fetch") then NetworkErrorText
    else GenericError
  }

  /** The same classification as a table of rules, tried in order: each rule names the fragments that select it. */
  const ErrorRules: seq<(seq<string>, string)> := [
    (["401"], AuthError),
    (["429"], RateError),
    (["500"], ServerError),
    (["NetworkError", "Failed to fetch"], NetworkErrorText)
  ]

  predicate RuleApplies(rule: (seq<string>, string), errorMessage: string)
  {
    exists f :: f in rule.0 && Contains(errorMessage, f)
  }

  /** The text of the first applicable rule at or after `i`, or the generic text. */
  function RuleText(errorMessage: string, i: nat): string
    requires i <= |ErrorRules|
    decreases |ErrorRules| - i
  {
    if i == |ErrorRules| then GenericError
    else if RuleApplies(ErrorRules[i], errorMessage) then ErrorRules[i].1
    else RuleText(errorMessage, i + 1)
  }

  /** The chain of checks and the rule table classify every error message alike. */
  lemma ErrorTextByRules(errorMessage: string)
    ensures ErrorText(errorMessage) == RuleText(errorMessage, 0)
  {
    assert RuleApplies(ErrorRules[0], errorMessage) <==> Contains(errorMessage, "401") by {
      assert ErrorRules[0].0 == ["401"];
    }
    assert RuleApplies(ErrorRules[1], errorMessage) <==> Contains(errorMessage, "429") by {
      assert ErrorRules[1].0 == ["429"];
    }
    assert RuleApplies(ErrorRules[2], errorMessage) <==> Contains(errorMessage, "500") by {
      assert ErrorRules[2].0 == ["500"];
    }
    assert RuleApplies(ErrorRules[3], errorMessage) <==>
             Contains(errorMessage, "NetworkError") || Contains(errorMessage, "Failed to fetch") by {
      assert ErrorRules[3].0 == ["NetworkError", "Failed to fetch"];
    }
  }

  /** The JSON body of a successful backend answer. */
  datatype ChatReply = ChatReply(success: bool, data: Option<string>)

  /** What `fetch` of the chat endpoint came to. */
  datatype Backend =
    | Unreachable(reason: string)                                  // the fetch promise rejected with this message
    | Http(status: nat, text: string, json: Result<ChatReply, string>)  // a response; its body as text, and parsed (or the parse error)

  const StatusErrorPrefix: string := "Backend request failed with status "
  const InvalidStructure: string := "Invalid backend response structure"

  /** `response.ok`. */
  predicate OkStatus(status: nat) { 200 <= status <= 299 }

  /**
   * `callAI`: the trimmed answer, or the message of the error it throws — the
   * network failure, a status outside 200-299 with the body, a body that is
   * not JSON, or a reply without success or without a non-empty answer.
   */
  function CallAI(b: Backend): (r: Result<string, string>)
    ensures r.Ok? <==> b.Http? && OkStatus(b.status) && b.json.Ok? && b.json.value.success
                       && b.json.value.data.Some? && b.json.value.data.value != ""
    ensures r.Ok? ==> r.value == JsTrim(b.json.value.data.value)
    ensures b.Unreachable? ==> r == Err(b.reason)
    ensures b.Http? && !OkStatus(b.status) ==>
              r == Err(StatusErrorPrefix + NatToString(b.status) + ": " + b.text)
  {
    match b
    case Unreachable(reason) => Err(reason)
    case Http(status, text, json) =>
      if !OkStatus(status) then Err(StatusErrorPrefix + NatToString(status) + ": " + text)
      else match json
        case Err(e) => Err(e)
        case Ok(reply) =>
          if !reply.success || reply.data.None? || reply.data.value == "" then Err(InvalidStructure)
          else Ok(JsTrim(reply.data.value))
  }

  /**
   * The bot messages that follow a user message, given the outcome of the
   * call and the canned answer: the answer; or, when the call failed, the
   * canned answer and the note; or else one error text.
   */
  function BotReplies(answer: Result<string, string>, fallback: Option<Canned>): (r: seq<string>)
    ensures 1 <= |r| <= 2
    ensures |r| == 2 <==> answer.Err? && fallback.Some?
    ensures answer.Ok? ==> r == [answer.value]
    ensures answer.Err? && fallback.Some? ==> r == [CannedText(fallback.value), FallbackNote]
    ensures answer.Err? && fallback.None? ==> r == [ErrorText(answer.error)]
  {
    match answer
    case Ok(text) => [text]
    case Err(e) =>
      match fallback
      case Some(c) => [CannedText(c), FallbackNote]
      case None => [ErrorText(e)]
  }

  /**
   * The `try`/`catch` of `sendMessage` once the user's message is shown: the
   * call, and on failure the fallback lookup or the error classification.
   */
  method Respond(message: string, backend: Backend) returns (replies: seq<string>)
    ensures replies == BotReplies(CallAI(backend), Fallback(message))
  {
    var answer := CallAI(backend);
    match answer
    case Ok(text) =>
      replies := [text];
    case Err(e) =>
      var fallback := GetFallbackResponse(message);
      if fallback.Some? {
        return [CannedText(fallback.value), FallbackNote];
      }
      replies := [ErrorText(e)];
  }

  /** The messages one send appends: none for a blank input, else the trimmed text and its replies. */
  function Turn(input: string, b: Backend, now: int): (r: seq<Message>)
    ensures JsTrim(input) == "" <==> r == []
    ensures r != [] ==> 2 <= |r| <= 3 && r[0] == Message(JsTrim(input), User, now)
    ensures forall i :: 1 <= i < |r| ==> r[i].sender == Bot && r[i].timestamp == now
  {
    var m := JsTrim(input);
    TurnOf(m, if m == "" then [] else Replies(m, b), now)
  }

  /** The messages a send appends, given the trimmed input and the bot texts that answer it. */
  function TurnOf(m: string, texts: seq<string>, now: int): (r: seq<Message>)
    requires m != "" ==> 1 <= |texts| <= 2
    ensures m == "" <==> r == []
    ensures r != [] ==> 2 <= |r| <= 3 && r[0] == Message(m, User, now)
    ensures forall i :: 1 <= i < |r| ==> r[i].sender == Bot && r[i].timestamp == now
  {
    if m == "" then [] else Exchange(m, texts, now)
  }

  /** The bot texts that answer the trimmed message `m`. */
  function Replies(m: string, b: Backend): (r: seq<string>)
    ensures 1 <= |r| <= 2
  {
    BotReplies(CallAI(b), Fallback(m))
  }

  /** The user's message followed by bot messages carrying the given texts. */
  function Exchange(m: string, texts: seq<string>, now: int): (r: seq<Message>)
    ensures |r| == 1 + |texts| && r[0] == Message(m, User, now)
    ensures forall i :: 1 <= i < |r| ==> r[i] == Message(texts[i - 1], Bot, now)
  {
    [Message(m, User, now)] + BotMessages(texts, now)
  }

  /** Bot messages carrying the given texts, all stamped with the same time. */
  function BotMessages(texts: seq<string>, now: int): (r: seq<Message>)
    ensures |r| == |texts|
    ensures forall i :: 0 <= i < |r| ==> r[i] == Message(texts[i], Bot, now)
  {
    if texts == [] then [] else [Message(texts[0], Bot, now)] + BotMessages(texts[1..], now)
  }

  /**
   * A failed call never leaves the user without a reply, and the note follows
   * exactly the canned answers: its presence marks a fallback reply.
   */
  lemma FallbackNoteMarksFallback(input: string, b: Backend, now: int)
    requires JsTrim(input) != ""
    ensures var t := Turn(input, b, now);
            |t| == 3 <==> CallAI(b).Err? && Fallback(JsTrim(input)).Some?
    ensures var t := Turn(input, b, now);
            |t| == 3 ==> t[2].content == FallbackNote && t[1].content == CannedText(Fallback(JsTrim(input)).value)
  {
    TurnUnfolds(input, b, now);
  }

  lemma TurnUnfolds(input: string, b: Backend, now: int)
    requires JsTrim(input) != ""
    ensures Turn(input, b, now) == Exchange(JsTrim(input), BotReplies(CallAI(b), Fallback(JsTrim(input))), now)
  {
    assert Replies(JsTrim(input), b) == BotReplies(CallAI(b), Fallback(JsTrim(input)));
  }

  lemma AppendAssoc(a: seq<Message>, b: seq<Message>, c: seq<Message>)
    ensures a + b + c == a + (b + c)
  {
  }

  /**
   * The property names of `Object.prototype` that a lower-cased message can
   * spell (every other one holds an upper-case letter). The table is a plain
   * object literal, so `fallbackResponses[lower]` finds these too.
   */
  const InheritedKeys: seq<string> := ["constructor", "__proto__"]

  /** What the exact lookup of `getFallbackResponse` as written finds. */
  datatype Lookup =
    | Own(answer: Canned)          // an entry of the table, or a partial match
    | InheritedMember(name: string) // a function or `Object.prototype`: truthy, but not a string
    | NoAnswer

  /**
   * `getFallbackResponse` as written: an own key first, then an inherited
   * member, then the partial scan. Away from the inherited names it agrees
   * with `Fallback`, which answers from the table's own keys only.
   */
  function FallbackAsWritten(message: string): (r: Lookup)
    ensures r.InheritedMember? <==> Normalise(message) in InheritedKeys
    ensures !r.InheritedMember? ==> (r.Own? <==> Fallback(message).Some?)
    ensures r.Own? ==> Fallback(message) == Some(r.answer)
  {
    var lower := Normalise(message);
    InheritedNotOwn(lower);
    match LookupFrom(FallbackTable, lower, 0)
    case Some(i) => Own(FallbackTable[i].1)
    case None =>
      if lower in InheritedKeys then InheritedMember(lower)
      else match PartialFrom(FallbackTable, lower, 0)
        case Some(k) => Own(FallbackTable[k].1)
        case None => NoAnswer
  }

  /** No key of the table is an inherited name: their lengths differ. */
  lemma InheritedNotOwn(lower: string)
    ensures LookupFrom(FallbackTable, lower, 0).Some? ==> lower !in InheritedKeys
  {
    if lower in InheritedKeys {
      assert |lower| == 11 || |lower| == 9;
      forall j | 0 <= j < |FallbackTable|
        ensures FallbackTable[j].0 != lower
      {
        assert |FallbackTable[j].0| in {2, 5, 10, 31, 24, 17, 19, 20, 7};
      }
    }
  }

  /**
   * The messages one send appends as written. An inherited member is
   * truthy, so the handler hands it to `addMessage`, whose `replace` call
   * throws before anything is stored: the rejection escapes `sendMessage`
   * and only the user's message remains. Otherwise it is `Turn`.
   */
  function TurnAsWritten(input: string, b: Backend, now: int): (r: seq<Message>)
    ensures JsTrim(input) == "" <==> r == []
    ensures r != [] ==> r[0] == Message(JsTrim(input), User, now)
    ensures |r| == 1 <==> JsTrim(input) != "" && CallAI(b).Err? && FallbackAsWritten(JsTrim(input)).InheritedMember?
    ensures !(CallAI(b).Err? && FallbackAsWritten(JsTrim(input)).InheritedMember?) ==> r == Turn(input, b, now)
  {
    var m := JsTrim(input);
    if m != "" && CallAI(b).Err? && FallbackAsWritten(m).InheritedMember? then [Message(m, User, now)]
    else Turn(input, b, now)
  }

  /**
   * With the chat endpoint unreachable, "constructor" gets no reply at all as
   * written, while answering from the table's own keys gives the error text.
   */
  lemma ConstructorLosesReply(reason: string, now: int)
    ensures TurnAsWritten("constructor", Unreachable(reason), now) == [Message("constructor", User, now)]
    ensures Turn("constructor", Unreachable(reason), now)
            == [Message("constructor", User, now), Message(ErrorText(reason), Bot, now)]
  {
    ConstructorIsInherited("constructor");
    InheritedTurnAsWritten("constructor", reason, now);
    UnansweredTurn("constructor", reason, now);
  }

  /** "constructor" is its own normal form, an inherited name, and has no canned answer of its own. */
  lemma ConstructorIsInherited(m: string)
    requires m == "constructor"
    ensures m != [] && JsTrim(m) == m && Normalise(m) == m && m in InheritedKeys && Fallback(m).None?
  {
    ConstructorLetters(m);
    PlainWordNormal(m);
    FallbackLetters();
    NoPartialKey(FallbackTable, m);
    InheritedNotOwn(m);
    NoAnswerFor(m);
  }

  lemma ConstructorLetters(m: string)
    requires m == "constructor"
    ensures m != [] && m in InheritedKeys
    ensures forall i :: 0 <= i < |m| ==> 'a' <= m[i] <= 'z' && m[i] != 'h' && m[i] != 'l' && m[i] != 'p'
  {
  }

  /** A normal form that is no key and contains none but 'default' has no canned answer. */
  lemma NoAnswerFor(m: string)
    requires Normalise(m) == m
    requires LookupFrom(FallbackTable, m, 0).None? && PartialFrom(FallbackTable, m, 0).None?
    ensures Fallback(m).None?
  {
  }

  /** A trimmed inherited name loses its reply as written when the call fails. */
  lemma InheritedTurnAsWritten(m: string, reason: string, now: int)
    requires m != [] && JsTrim(m) == m && Normalise(m) in InheritedKeys
    ensures TurnAsWritten(m, Unreachable(reason), now) == [Message(m, User, now)]
  {
    assert CallAI(Unreachable(reason)).Err?;
    assert FallbackAsWritten(m).InheritedMember?;
  }

  /** A trimmed message without a canned answer gets the error text when the call fails. */
  lemma UnansweredTurn(m: string, reason: string, now: int)
    requires m != [] && JsTrim(m) == m && Fallback(m).None?
    ensures Turn(m, Unreachable(reason), now) == [Message(m, User, now), Message(ErrorText(reason), Bot, now)]
  {
    TurnUnfolds(m, Unreachable(reason), now);
    ErrorReplies(reason);
    SingleExchange(m, ErrorText(reason), now);
  }

  /** An unreachable endpoint with no canned answer is answered by the error text alone. */
  lemma ErrorReplies(reason: string)
    ensures BotReplies(CallAI(Unreachable(reason)), None) == [ErrorText(reason)]
  {
    assert CallAI(Unreachable(reason)) == Err(reason);
  }

  lemma SingleExchange(m: string, e: string, now: int)
    ensures Exchange(m, [e], now) == [Message(m, User, now), Message(e, Bot, now)]
  {
  }

  /** A word of lower-case letters is its own trimmed and normalised form. */
  lemma PlainWordNormal(m: string)
    requires m != [] && forall i :: 0 <= i < |m| ==> 'a' <= m[i] <= 'z'
    ensures JsTrim(m) == m && Normalise(m) == m
  {
    assert Lower(m) == m;
    assert TrimStart(m, Js) == m;
    assert TrimEnd(m, Js) == m;
  }

  /**
   * In a table laid out like the fallback table, a message without the
   * letters h, l and p contains no key but 'default'.
   */
  lemma NoPartialKey(table: seq<(string, Canned)>, m: string)
    requires LettersLikeFallback(table)
    requires forall i :: 0 <= i < |m| ==> m[i] != 'h' && m[i] != 'l' && m[i] != 'p'
    ensures PartialFrom(table, m, 0).None?
  {
    forall j | 0 <= j < 8
      ensures !Contains(m, table[j].0)
    {
      MissingLetter(m, table[j].0, if j == 3 then 2 else if j in {2, 4, 5, 6} then 1 else 0);
    }
  }

  /** The letter of each key of the fallback table that "constructor" lacks, and 'default' last. */
  predicate LettersLikeFallback(table: seq<(string, Canned)>)
  {
    |table| == 9 && table[8].0 == DefaultKey
    && |table[0].0| > 0 && table[0].0[0] == 'h' && |table[1].0| > 0 && table[1].0[0] == 'h'
    && |table[2].0| > 1 && table[2].0[1] == 'h' && |table[3].0| > 2 && table[3].0[2] == 'l'
    && |table[4].0| > 1 && table[4].0[1] == 'h' && |table[5].0| > 1 && table[5].0[1] == 'p'
    && |table[6].0| > 1 && table[6].0[1] == 'h' && |table[7].0| > 0 && table[7].0[0] == 'p'
  }

  lemma FallbackLetters()
    ensures LettersLikeFallback(FallbackTable)
  {
  }

  /** A string without the character at `c` of `p` does not contain `p`. */
  lemma MissingLetter(s: string, p: string, c: nat)
    requires c < |p| && forall i :: 0 <= i < |s| ==> s[i] != p[c]
    ensures !Contains(s, p)
  {
    forall k | 0 <= k <= |s| - |p|
      ensures !OccursAt(s, p, k)
    {
      assert s[k..k + |p|][c] == s[k + c];
    }
  }

  /** JavaScript's `messages.slice(-n)`: the last `n` messages, or all of them when there are fewer. */
  function Recent(s: seq<Message>, n: nat): (r: seq<Message>)
    ensures |r| == if |s| < n then |s| else n
    ensures forall i :: 0 <= i < |r| ==> r[i] == s[|s| - |r| + i]
  {
    if |s| <= n then s else s[|s| - n..]
  }
}
