/**
 The passes that add system text to a chat request before it is sent on: remembered facts
 (`_inject_memories` in api/routes/compat_chat.py), document excerpts
 (`apply_document_collection_context` in api/routes/openai_chat_completion.py) and the agent
 prompt (core/agent_tools/prompt_builder.py).
 */
module PromptPasses {
  import opened Wrappers
  import opened Sequences

  datatype Part = TextPart(text: string) | OtherPart

  datatype Content = Absent | Text(text: string) | Parts(parts: seq<Part>) | OtherContent(shown: string)

  datatype Message = Message(role: string, content: Content)

  /** Text services this model takes as given: white space, `str`, the test for words that refer
      back to an earlier answer, and the wording of the added messages. */
  datatype Env = Env(
    space: char -> bool,
    shown: Content -> string,
    refersBack: string -> bool,
    render: seq<string> -> string,
    graphNote: string,
    answerNote: string -> string)

  datatype Pass =
    | Memories(enabled: bool, search: string -> seq<string>)
    | Documents(ids: seq<string>, service: Option<string -> seq<string>>)
    | AgentPrompt(graph: bool)

  function SystemMessage(text: string): Message {
    Message("system", Text(text))
  }

  // ---------- reading a conversation ----------

  function Last(ms: seq<Message>): Message
    requires ms != []
  {
    ms[|ms| - 1]
  }

  function Front(ms: seq<Message>): seq<Message> {
    if ms == [] then [] else ms[..|ms| - 1]
  }

  function NonSystem(ms: seq<Message>): seq<Message> {
    if ms == [] then []
    else if Last(ms).role == "system" then NonSystem(Front(ms))
    else NonSystem(Front(ms)) + [Last(ms)]
  }

  /** There is no last message, or it is a system message. */
  predicate SystemLast(ms: seq<Message>) {
    ms == [] || Last(ms).role == "system"
  }

  function LatestUser(ms: seq<Message>): Option<Message> {
    if ms == [] then None else if Last(ms).role == "user" then Some(Last(ms)) else LatestUser(Front(ms))
  }

  predicate Blank(space: char -> bool, s: string) {
    forall i :: 0 <= i < |s| ==> space(s[i])
  }

  function Strip(space: char -> bool, s: string): string
    decreases |s|
  {
    if s == [] then s
    else if space(s[0]) then Strip(space, s[1..])
    else if space(s[|s| - 1]) then Strip(space, s[..|s| - 1])
    else s
  }

  predicate IsAnswer(env: Env, m: Message) {
    m.role == "assistant" && m.content.Text? && !Blank(env.space, m.content.text)
  }

  function LatestAnswer(env: Env, ms: seq<Message>): Option<string> {
    if ms == [] then None
    else if IsAnswer(env, Last(ms)) then Some(Last(ms).content.text) else LatestAnswer(env, Front(ms))
  }

  /** The latest answer before the final message. */
  function PreviousAnswer(env: Env, ms: seq<Message>): Option<string> {
    LatestAnswer(env, Front(ms))
  }

  predicate RefersBack(env: Env, ms: seq<Message>) {
    ms != [] && Last(ms).role == "user" && Last(ms).content.Text? && env.refersBack(Last(ms).content.text)
  }

  function TextParts(parts: seq<Part>): seq<string> {
    if parts == [] then []
    else (if parts[0].TextPart? then [parts[0].text] else []) + TextParts(parts[1..])
  }

  function Join(lines: seq<string>): string {
    if lines == [] then "" else if |lines| == 1 then lines[0] else lines[0] + "\n" + Join(lines[1..])
  }

  function ContentText(content: Content): string {
    match content
    case Text(text) => text
    case Parts(parts) => Join(TextParts(parts))
    case _ => ""
  }

  /** What memories are searched for. */
  function MemoryQuery(env: Env, ms: seq<Message>): string {
    var user := LatestUser(ms);
    if user.None? then "" else Written(env, user.value.content)
  }

  /** What document collections are searched for. */
  function DocumentQuery(env: Env, ms: seq<Message>): string {
    var user := LatestUser(ms);
    if user.None? then "" else Strip(env.space, ContentText(user.value.content))
  }

  // ---------- what these readings mean ----------

  /** `r` is the stretch of `s` between its first and its last character that is not white space. */
  ghost predicate Stripped(space: char -> bool, s: string, r: string) {
    && (r != "" ==> !space(r[0]) && !space(r[|r| - 1]))
    && exists i, j :: 0 <= i <= j <= |s| && Stretch(space, s, r, i, j)
  }

  predicate Stretch(space: char -> bool, s: string, r: string, i: nat, j: nat)
    requires i <= j <= |s|
  {
    && r == s[i..j]
    && (forall k :: 0 <= k < i ==> space(s[k])) && forall k :: j <= k < |s| ==> space(s[k])
  }

  lemma {:induction false} StripStretch(space: char -> bool, s: string) returns (i: nat, j: nat)
    ensures i <= j <= |s| && Stretch(space, s, Strip(space, s), i, j)
    decreases |s|
  {
    if s != [] && space(s[0]) {
      var rest := s[1..];
      i, j := StripStretch(space, rest);
      SliceOfTail(s, 1, i, j);
      i, j := i + 1, j + 1;
      assert forall k :: 0 < k < |s| ==> s[k] == rest[k - 1];
    } else if s != [] && space(s[|s| - 1]) {
      var front := s[..|s| - 1];
      i, j := StripStretch(space, front);
      assert forall k :: 0 <= k < |front| ==> s[k] == front[k];
      assert front[i..j] == s[i..j];
    } else {
      i, j := 0, |s|;
      assert s[0..|s|] == s;
    }
  }

  lemma {:induction false} StripEnds(space: char -> bool, s: string)
    ensures var r := Strip(space, s); r != "" ==> !space(r[0]) && !space(r[|r| - 1])
    decreases |s|
  {
    if s != [] && space(s[0]) {
      StripEnds(space, s[1..]);
    } else if s != [] && space(s[|s| - 1]) {
      StripEnds(space, s[..|s| - 1]);
    }
  }

  lemma StripMeans(space: char -> bool, s: string)
    ensures Stripped(space, s, Strip(space, s))
  {
    hide Strip, Stretch;
    StripEnds(space, s);
    var i, j := StripStretch(space, s);
  }

  /** A text without white space at its ends is left alone. */
  lemma StrippedWhole(space: char -> bool, s: string, r: string)
    requires Stripped(space, s, r) && s != "" && !space(s[0]) && !space(s[|s| - 1])
    ensures r == s
  {
    var i, j :| 0 <= i <= j <= |s| && Stretch(space, s, r, i, j);
    var first, last := s[0], s[|s| - 1];
    assert i > 0 ==> space(first);
    assert j < |s| ==> space(last);
    assert s[0..|s|] == s;
  }

  /** The last of the user's messages, by position. */
  lemma {:induction false} LatestUserMeans(ms: seq<Message>) returns (k: int)
    ensures -1 <= k < |ms| && forall i :: k < i < |ms| ==> ms[i].role != "user"
    ensures k >= 0 ==> ms[k].role == "user"
    ensures LatestUser(ms) == if k >= 0 then Some(ms[k]) else None
    decreases |ms|
  {
    if ms == [] {
      k := -1;
    } else if Last(ms).role == "user" {
      k := |ms| - 1;
    } else {
      k := LatestUserMeans(Front(ms));
    }
  }

  /** The last text of the assistant's that is not blank, before the final message, by position. */
  lemma PreviousAnswerMeans(env: Env, ms: seq<Message>) returns (k: int)
    ensures -1 <= k < |ms| && (k >= 0 ==> k < |ms| - 1)
    ensures forall i :: k < i < |ms| - 1 ==>
              !(ms[i].role == "assistant" && ms[i].content.Text? && !Blank(env.space, ms[i].content.text))
    ensures k >= 0 ==> ms[k].role == "assistant" && ms[k].content.Text? && !Blank(env.space, ms[k].content.text)
    ensures PreviousAnswer(env, ms) == if k >= 0 then Some(ms[k].content.text) else None
  {
    k := LatestAnswerMeans(env, Front(ms));
  }

  lemma {:induction false} LatestAnswerMeans(env: Env, ms: seq<Message>) returns (k: int)
    ensures -1 <= k < |ms| && forall i :: k < i < |ms| ==> !IsAnswer(env, ms[i])
    ensures k >= 0 ==> IsAnswer(env, ms[k])
    ensures LatestAnswer(env, ms) == if k >= 0 then Some(ms[k].content.text) else None
    decreases |ms|
  {
    if ms == [] {
      k := -1;
    } else if IsAnswer(env, Last(ms)) {
      k := |ms| - 1;
    } else {
      k := LatestAnswerMeans(env, Front(ms));
    }
  }

  /** By position: the texts of the text parts. */
  ghost predicate TextsAt(parts: seq<Part>, texts: seq<string>, at: seq<nat>) {
    && Ascending(at, |parts|) && |at| == |texts|
    && (forall k :: 0 <= k < |at| ==> parts[at[k]] == TextPart(texts[k]))
    && (forall i :: 0 <= i < |parts| && parts[i].TextPart? ==> i in at)
  }

  lemma {:induction false} TextPartsConcat(a: seq<Part>, b: seq<Part>)
    ensures TextParts(a + b) == TextParts(a) + TextParts(b)
  {
    if a == [] {
      assert a + b == b;
    } else {
      assert (a + b)[1..] == a[1..] + b;
      TextPartsConcat(a[1..], b);
      ConcatAssoc(if a[0].TextPart? then [a[0].text] else [], TextParts(a[1..]), TextParts(b));
    }
  }

  lemma {:induction false} TextPartsMean(parts: seq<Part>) returns (at: seq<nat>)
    ensures TextsAt(parts, TextParts(parts), at)
  {
    hide TextsAt;
    if parts == [] {
      at := [];
      NoTexts();
    } else {
      var n := |parts| - 1;
      var front, last := parts[..n], parts[n];
      assert parts == front + [last] && [last][1..] == [];
      at := TextPartsMean(front);
      TextPartsConcat(front, [last]);
      TextMore(front, TextParts(front), at, last);
      assert TextParts([]) == [];
      assert TextParts([last]) == if last.TextPart? then [last.text] else [];
      if last.TextPart? {
        at := at + [n];
      } else {
        assert TextParts(front) + [] == TextParts(front);
      }
    }
  }

  lemma NoTexts()
    ensures TextsAt([], TextParts([]), [])
  {
  }

  lemma TextMore(front: seq<Part>, texts: seq<string>, at: seq<nat>, last: Part)
    requires TextsAt(front, texts, at)
    ensures last.TextPart? ==> TextsAt(front + [last], texts + [last.text], at + [|front|])
    ensures last.OtherPart? ==> TextsAt(front + [last], texts, at)
  {
    var n, all, more := |front|, front + [last], at + [|front|];
    assert all[n] == last && forall i :: 0 <= i < n ==> all[i] == front[i];
    assert more[|at|] == n;
    forall i | 0 <= i < |all| && all[i].TextPart? ensures i in more && (i < n ==> i in at) {
      if i < n {
        assert front[i].TextPart?;
        var k :| 0 <= k < |at| && at[k] == i;
        assert more[k] == i;
      }
    }
  }

  /** Lines are joined with a newline between any two. */
  lemma {:induction false} JoinMeans(a: seq<string>, b: seq<string>)
    ensures Join([]) == "" && (|a| == 1 ==> Join(a) == a[0])
    ensures a != [] && b != [] ==> Join(a + b) == Join(a) + "\n" + Join(b)
  {
    if |a| == 1 {
      assert (a + b)[1..] == b;
    } else if a != [] {
      assert (a + b)[1..] == a[1..] + b;
      JoinMeans(a[1..], b);
    }
  }

  /** One line for each fact, in order. */
  function Listed(facts: seq<string>): string {
    if facts == [] then "" else "\n- " + facts[0] + Listed(facts[1..])
  }

  lemma {:induction false} BulletsAreListed(facts: seq<string>)
    requires facts != []
    ensures "\n" + Join(Bullets(facts)) == Listed(facts)
  {
    var lines := Bullets(facts);
    if |facts| > 1 {
      BulletsAreListed(facts[1..]);
      assert lines[1..] == Bullets(facts[1..]);
      var rest := Join(lines[1..]);
      assert "\n" + (("- " + facts[0]) + "\n" + rest) == ("\n- " + facts[0]) + ("\n" + rest);
    } else {
      assert facts[1..] == [];
      assert "\n" + ("- " + facts[0]) == "\n- " + facts[0] + "";
    }
  }

  /** Both searches are for the last of the user's messages: for memories as it is written, for
      documents its text, or its text parts on a line each, without white space around it. */
  lemma QueriesMean(env: Env, ms: seq<Message>) returns (k: int)
    ensures -1 <= k < |ms| && (forall i :: k < i < |ms| ==> ms[i].role != "user") && (k >= 0 ==> ms[k].role == "user")
    ensures k == -1 ==> MemoryQuery(env, ms) == "" && DocumentQuery(env, ms) == ""
    ensures k >= 0 ==>
              var c := ms[k].content;
              && (c.Absent? ==> MemoryQuery(env, ms) == "")
              && (c.Text? ==> MemoryQuery(env, ms) == c.text && Stripped(env.space, c.text, DocumentQuery(env, ms)))
              && (c.Parts? ==> Stripped(env.space, Join(TextParts(c.parts)), DocumentQuery(env, ms)))
              && (c.Parts? || c.OtherContent? ==> MemoryQuery(env, ms) == env.shown(c))
              && (c.Absent? || c.OtherContent? ==> DocumentQuery(env, ms) == "")
  {
    k := LatestUserMeans(ms);
    if k >= 0 {
      StripMeans(env.space, ContentText(ms[k].content));
    }
  }

  /** The memory block: a heading and one line for each fact that is found. */
  lemma MemoryBlockMeans(env: Env, p: Pass, ms: seq<Message>)
    requires p.Memories?
    ensures var query := MemoryQuery(env, ms);
            MemoryBlock(env, p, ms) ==
              if !p.enabled || query == "" || p.search(query) == [] then []
              else ["[Memory]" + Listed(p.search(query))]
  {
    var query := MemoryQuery(env, ms);
    if p.enabled && query != "" && p.search(query) != [] {
      var facts := p.search(query);
      BulletsAreListed(facts);
      assert "[Memory]\n" + Join(Bullets(facts)) == "[Memory]" + ("\n" + Join(Bullets(facts)));
    }
  }

  // ---------- what each pass adds ----------

  function Bullets(facts: seq<string>): seq<string> {
    seq(|facts|, i requires 0 <= i < |facts| => "- " + facts[i])
  }

  /** The memory block, or nothing. */
  function MemoryBlock(env: Env, p: Pass, ms: seq<Message>): seq<string>
    requires p.Memories?
  {
    var query := MemoryQuery(env, ms);
    if !p.enabled || query == "" || p.search(query) == [] then []
    else ["[Memory]\n" + Join(Bullets(p.search(query)))]
  }

  function DocumentBlock(env: Env, p: Pass, ms: seq<Message>): seq<string>
    requires p.Documents?
  {
    var query := DocumentQuery(env, ms);
    if p.ids == [] || p.service.None? || query == "" || p.service.value(query) == [] then []
    else [env.render(p.service.value(query))]
  }

  function AnswerBlock(env: Env, ms: seq<Message>): seq<string> {
    if PreviousAnswer(env, ms).Some? && RefersBack(env, ms) then [env.answerNote(PreviousAnswer(env, ms).value)] else []
  }

  function Blocks(env: Env, p: Pass, ms: seq<Message>): seq<string> {
    if p.Memories? then MemoryBlock(env, p, ms)
    else if p.Documents? then DocumentBlock(env, p, ms)
    else (if p.graph then [env.graphNote] else []) + AnswerBlock(env, ms)
  }

  predicate HasSystem(ms: seq<Message>) {
    exists i :: 0 <= i < |ms| && ms[i].role == "system"
  }

  /** A content as it is interpolated into text. */
  function Written(env: Env, content: Content): string {
    if content.Absent? then "" else if content.Text? then content.text else env.shown(content)
  }

  function Merged(env: Env, text: string, m: Message): Message {
    m.(content := Text(Strip(env.space, text + "\n\n" + Written(env, m.content))))
  }

  function MergeFirst(env: Env, text: string, ms: seq<Message>): seq<Message> {
    if ms == [] then []
    else if ms[0].role == "system" then [Merged(env, text, ms[0])] + ms[1..]
    else [ms[0]] + MergeFirst(env, text, ms[1..])
  }

  function Injected(env: Env, text: string, ms: seq<Message>): seq<Message> {
    if HasSystem(ms) then MergeFirst(env, text, ms) else [SystemMessage(text)] + ms
  }

  function Insert(ms: seq<Message>, i: nat, m: Message): seq<Message>
    requires i <= |ms|
  {
    ms[..i] + [m] + ms[i..]
  }

  function WithAnswer(env: Env, ms: seq<Message>): seq<Message> {
    var answer := AnswerBlock(env, ms);
    if answer == [] then ms else Insert(ms, |ms| - 1, SystemMessage(answer[0]))
  }

  predicate Fails(p: Pass) {
    p.Documents? && p.ids != [] && p.service.None?
  }

  function Applied(env: Env, p: Pass, ms: seq<Message>): seq<Message> {
    if p.Memories? then
      (var block := MemoryBlock(env, p, ms); if block == [] then ms else Injected(env, block[0], ms))
    else if p.Documents? then
      (var block := DocumentBlock(env, p, ms); if block == [] then ms else [SystemMessage(block[0])] + ms)
    else WithAnswer(env, (if p.graph then [SystemMessage(env.graphNote)] else []) + ms)
  }

  /** None: a pass failed with 503, and the request goes no further. */
  function AppliedAll(env: Env, passes: seq<Pass>, ms: seq<Message>): Option<seq<Message>> {
    if passes == [] then Some(ms)
    else if Fails(passes[0]) then None
    else AppliedAll(env, passes[1..], Applied(env, passes[0], ms))
  }

  // ---------- the conversation is kept ----------

  /** The same conversation up to system messages, with the same kind of ending. */
  predicate Same(a: seq<Message>, b: seq<Message>) {
    NonSystem(a) == NonSystem(b) && SystemLast(a) == SystemLast(b)
  }

  lemma NonSystemUnfold(ms: seq<Message>)
    requires ms != []
    ensures NonSystem(ms) == NonSystem(Front(ms)) + if Last(ms).role == "system" then [] else [Last(ms)]
  {
  }

  lemma NonSystemNone()
    ensures NonSystem([]) == []
  {
  }

  lemma {:induction false} NonSystemConcat(a: seq<Message>, b: seq<Message>)
    ensures NonSystem(a + b) == NonSystem(a) + NonSystem(b)
    decreases |b|
  {
    hide NonSystem;
    assert NonSystem([]) == [] by { NonSystemNone(); }
    if b == [] {
      assert a + b == a;
    } else {
      assert Front(a + b) == a + Front(b) && Last(a + b) == Last(b);
      NonSystemConcat(a, Front(b));
      NonSystemUnfold(a + b);
      NonSystemUnfold(b);
    }
  }

  lemma NonSystemOne(m: Message)
    ensures NonSystem([m]) == if m.role == "system" then [] else [m]
  {
    assert Front([m]) == [];
  }

  lemma {:induction false} LatestUserIsNonSystem(ms: seq<Message>)
    ensures LatestUser(ms) == LatestUser(NonSystem(ms))
    decreases |ms|
  {
    if ms != [] && Last(ms).role == "system" {
      LatestUserIsNonSystem(Front(ms));
    } else if ms != [] {
      LatestUserIsNonSystem(Front(ms));
      assert Front(NonSystem(Front(ms)) + [Last(ms)]) == NonSystem(Front(ms));
    }
  }

  lemma {:induction false} LatestAnswerIsNonSystem(env: Env, ms: seq<Message>)
    ensures LatestAnswer(env, ms) == LatestAnswer(env, NonSystem(ms))
    decreases |ms|
  {
    if ms != [] && Last(ms).role == "system" {
      LatestAnswerIsNonSystem(env, Front(ms));
    } else if ms != [] {
      LatestAnswerIsNonSystem(env, Front(ms));
      assert Front(NonSystem(Front(ms)) + [Last(ms)]) == NonSystem(Front(ms));
    }
  }

  lemma SameEnding(a: seq<Message>, b: seq<Message>)
    requires Same(a, b)
    ensures !SystemLast(a) ==> Last(a) == Last(b)
    ensures NonSystem(Front(a)) == NonSystem(Front(b))
  {
    if !SystemLast(a) {
      var x, y := NonSystem(Front(a)), NonSystem(Front(b));
      assert x + [Last(a)] == y + [Last(b)];
      assert (x + [Last(a)])[|x|] == Last(a) && (y + [Last(b)])[|y|] == Last(b);
      assert (x + [Last(a)])[..|x|] == x && (y + [Last(b)])[..|y|] == y;
    }
  }

  /** Everything the passes look at depends only on the conversation. */
  lemma SameReads(env: Env, a: seq<Message>, b: seq<Message>)
    requires Same(a, b)
    ensures LatestUser(a) == LatestUser(b)
    ensures PreviousAnswer(env, a) == PreviousAnswer(env, b)
    ensures RefersBack(env, a) <==> RefersBack(env, b)
  {
    SameEnding(a, b);
    LatestUserIsNonSystem(a);
    LatestUserIsNonSystem(b);
    LatestAnswerIsNonSystem(env, Front(a));
    LatestAnswerIsNonSystem(env, Front(b));
  }

  /** A system message put in anywhere but last leaves the conversation the same; last it does
      too when nothing or a system message was last. */
  lemma InsertKeeps(ms: seq<Message>, i: nat, m: Message)
    requires m.role == "system" && (i < |ms| || i == 0)
    ensures Same(ms, Insert(ms, i, m))
  {
    hide NonSystem;
    var a, b := ms[..i], ms[i..];
    assert ms == a + b;
    NonSystemConcat(a, b);
    NonSystemConcat(a + [m], b);
    NonSystemConcat(a, [m]);
    NonSystemOne(m);
  }

  /** Merging changes one message, the first system message, and only its content. */
  lemma {:induction false} MergeFirstMeans(env: Env, text: string, ms: seq<Message>) returns (k: nat)
    requires HasSystem(ms)
    ensures k < |ms| && ms[k].role == "system" && (forall i :: 0 <= i < k ==> ms[i].role != "system")
    ensures MergeFirst(env, text, ms) == ms[k := Merged(env, text, ms[k])]
  {
    if ms[0].role == "system" {
      k := 0;
    } else {
      var i :| 0 <= i < |ms| && ms[i].role == "system";
      assert ms[1..][i - 1].role == "system";
      var rest := MergeFirstMeans(env, text, ms[1..]);
      k := rest + 1;
    }
  }

  lemma InjectedKeeps(env: Env, text: string, ms: seq<Message>)
    ensures Same(ms, Injected(env, text, ms))
    ensures |Injected(env, text, ms)| == |ms| + if HasSystem(ms) then 0 else 1
  {
    if HasSystem(ms) {
      var k := MergeFirstMeans(env, text, ms);
      var m := Merged(env, text, ms[k]);
      var t := ms[k := m];
      assert ms == ms[..k] + [ms[k]] + ms[k + 1..] && t == ms[..k] + [m] + ms[k + 1..];
      NonSystemConcat(ms[..k] + [ms[k]], ms[k + 1..]);
      NonSystemConcat(ms[..k] + [m], ms[k + 1..]);
      NonSystemConcat(ms[..k], [ms[k]]);
      NonSystemConcat(ms[..k], [m]);
      NonSystemOne(m);
      NonSystemOne(ms[k]);
    } else {
      InsertKeeps(ms, 0, SystemMessage(text));
      assert Insert(ms, 0, SystemMessage(text)) == [SystemMessage(text)] + ms;
    }
  }

  lemma PrependKeeps(ms: seq<Message>, m: Message)
    requires m.role == "system"
    ensures Same(ms, [m] + ms)
  {
    InsertKeeps(ms, 0, m);
    assert Insert(ms, 0, m) == [m] + ms;
  }

  lemma WithAnswerKeeps(env: Env, ms: seq<Message>)
    ensures Same(ms, WithAnswer(env, ms))
    ensures |WithAnswer(env, ms)| == |ms| + |AnswerBlock(env, ms)|
  {
    hide SystemLast, NonSystem, PreviousAnswer;
    var answer := AnswerBlock(env, ms);
    if answer != [] {
      InsertKeeps(ms, |ms| - 1, SystemMessage(answer[0]));
    }
  }

  lemma AgentPromptKeeps(env: Env, graph: bool, ms: seq<Message>)
    ensures Same(ms, Applied(env, AgentPrompt(graph), ms))
    ensures |Applied(env, AgentPrompt(graph), ms)| == |ms| + |Blocks(env, AgentPrompt(graph), ms)|
  {
    hide SystemLast, NonSystem, PreviousAnswer, RefersBack, WithAnswer;
    var note := if graph then [SystemMessage(env.graphNote)] else [];
    var built := note + ms;
    if graph {
      PrependKeeps(ms, SystemMessage(env.graphNote));
    } else {
      assert built == ms;
    }
    SameReads(env, ms, built);
    WithAnswerKeeps(env, built);
  }

  /** One pass keeps the conversation and adds at most one message for each block of text. */
  lemma PassKeeps(env: Env, p: Pass, ms: seq<Message>)
    ensures Same(ms, Applied(env, p, ms))
    ensures |ms| <= |Applied(env, p, ms)| <= |ms| + |Blocks(env, p, ms)|
    ensures !p.Memories? ==> |Applied(env, p, ms)| == |ms| + |Blocks(env, p, ms)|
  {
    hide SystemLast, NonSystem, HasSystem, MergeFirst, AnswerBlock, WithAnswer;
    if p.Memories? {
      var block := MemoryBlock(env, p, ms);
      if block != [] {
        InjectedKeeps(env, block[0], ms);
      }
    } else if p.Documents? {
      var block := DocumentBlock(env, p, ms);
      if block != [] {
        PrependKeeps(ms, SystemMessage(block[0]));
      }
    } else {
      AgentPromptKeeps(env, p.graph, ms);
    }
  }

  /** The blocks of every pass, each computed on the request as the client sent it. */
  function AllBlocks(env: Env, passes: seq<Pass>, ms: seq<Message>): seq<string> {
    if passes == [] then [] else Blocks(env, passes[0], ms) + AllBlocks(env, passes[1..], ms)
  }

  lemma BlocksSame(env: Env, p: Pass, a: seq<Message>, b: seq<Message>)
    requires Same(a, b)
    ensures Blocks(env, p, a) == Blocks(env, p, b)
  {
    SameReads(env, a, b);
  }

  lemma {:induction false} AllBlocksSame(env: Env, passes: seq<Pass>, a: seq<Message>, b: seq<Message>)
    requires Same(a, b)
    ensures AllBlocks(env, passes, a) == AllBlocks(env, passes, b)
  {
    if passes != [] {
      BlocksSame(env, passes[0], a, b);
      AllBlocksSame(env, passes[1..], a, b);
    }
  }

  /** Any passes in any order: the request fails exactly when documents are asked for without a
      service; otherwise the conversation is kept, and the list grows by at most one message for
      each block that some pass has for the client's own request. */
  lemma {:induction false} PassesKeep(env: Env, passes: seq<Pass>, ms: seq<Message>)
    ensures AppliedAll(env, passes, ms).None? <==> exists i :: 0 <= i < |passes| && Fails(passes[i])
    ensures var t := AppliedAll(env, passes, ms); t.Some? ==>
      && Same(ms, t.value)
      && |ms| <= |t.value| <= |ms| + |AllBlocks(env, passes, ms)|
      && ((forall i :: 0 <= i < |passes| ==> !passes[i].Memories?) ==> |t.value| == |ms| + |AllBlocks(env, passes, ms)|)
    decreases |passes|
  {
    if passes != [] {
      var next := Applied(env, passes[0], ms);
      PassKeeps(env, passes[0], ms);
      PassesKeep(env, passes[1..], next);
      AllBlocksSame(env, passes[1..], ms, next);
      assert forall i :: 0 < i < |passes| ==> passes[i] == passes[1..][i - 1];
      if exists i :: 0 <= i < |passes| && Fails(passes[i]) && !Fails(passes[0]) {
        var i :| 0 <= i < |passes| && Fails(passes[i]) && !Fails(passes[0]);
        assert Fails(passes[1..][i - 1]);
      }
    }
  }

  /** Each pass has the same blocks of text for the messages that reach it as for the client's own
      request, whatever passes came before it. */
  lemma PassFindsTheSame(env: Env, passes: seq<Pass>, ms: seq<Message>, k: nat)
    requires k < |passes| && AppliedAll(env, passes[..k], ms).Some?
    ensures Blocks(env, passes[k], AppliedAll(env, passes[..k], ms).value) == Blocks(env, passes[k], ms)
  {
    PassesKeep(env, passes[..k], ms);
    BlocksSame(env, passes[k], ms, AppliedAll(env, passes[..k], ms).value);
  }

  /** A memory block goes into a system message that is there already. */
  predicate Merges(env: Env, p: Pass, ms: seq<Message>) {
    p.Memories? && MemoryBlock(env, p, ms) != [] && HasSystem(ms)
  }

  function Messages(texts: seq<string>): seq<Message> {
    seq(|texts|, i requires 0 <= i < |texts| => SystemMessage(texts[i]))
  }

  lemma InsertAdds(ms: seq<Message>, i: nat, m: Message)
    requires i <= |ms|
    ensures multiset(Insert(ms, i, m)) == multiset(ms) + multiset([m])
  {
    assert ms == ms[..i] + ms[i..];
  }

  lemma MessagesConcat(a: seq<string>, b: seq<string>)
    ensures Messages(a + b) == Messages(a) + Messages(b)
  {
  }

  lemma MessagesOne(text: string)
    ensures Messages([text]) == [SystemMessage(text)] && Messages([]) == []
  {
  }

  lemma WithAnswerAdds(env: Env, ms: seq<Message>)
    ensures multiset(WithAnswer(env, ms)) == multiset(ms) + multiset(Messages(AnswerBlock(env, ms)))
  {
    hide PreviousAnswer;
    var answer := AnswerBlock(env, ms);
    if answer != [] {
      InsertAdds(ms, |ms| - 1, SystemMessage(answer[0]));
      MessagesOne(answer[0]);
      assert answer == [answer[0]];
    }
  }

  /** What a pass that does not merge adds: one system message for each of its blocks, with that
      text, and nothing else is added, changed or removed. */
  lemma PassAdds(env: Env, p: Pass, ms: seq<Message>)
    requires !Merges(env, p, ms)
    ensures multiset(Applied(env, p, ms)) == multiset(ms) + multiset(Messages(Blocks(env, p, ms)))
  {
    hide MemoryQuery, DocumentQuery, HasSystem, MergeFirst, AnswerBlock, WithAnswer, Messages;
    var blocks := Blocks(env, p, ms);
    MessagesOne("");
    if p.AgentPrompt? {
      var note := if p.graph then [env.graphNote] else [];
      var built := Messages(note) + ms;
      MessagesOne(env.graphNote);
      SameAnswer(env, p.graph, ms);
      WithAnswerAdds(env, built);
      MessagesConcat(note, AnswerBlock(env, ms));
    } else if blocks != [] {
      assert blocks == [blocks[0]];
      MessagesOne(blocks[0]);
      assert Applied(env, p, ms) == [SystemMessage(blocks[0])] + ms;
    }
  }

  lemma SameAnswer(env: Env, graph: bool, ms: seq<Message>)
    ensures var built := (if graph then [SystemMessage(env.graphNote)] else []) + ms;
            AnswerBlock(env, built) == AnswerBlock(env, ms)
  {
    var built := (if graph then [SystemMessage(env.graphNote)] else []) + ms;
    if graph {
      PrependKeeps(ms, SystemMessage(env.graphNote));
    } else {
      assert built == ms;
    }
    SameReads(env, ms, built);
  }

  /** What document and agent passes add in any order: exactly one system message for each block
      that they have for the client's own request. */
  lemma {:induction false} PassesAdd(env: Env, passes: seq<Pass>, ms: seq<Message>)
    requires AppliedAll(env, passes, ms).Some? && forall i :: 0 <= i < |passes| ==> !passes[i].Memories?
    ensures multiset(AppliedAll(env, passes, ms).value) == multiset(ms) + multiset(Messages(AllBlocks(env, passes, ms)))
    decreases |passes|
  {
    hide Applied, Blocks, Messages;
    if passes == [] {
      MessagesOne("");
    } else {
      var next := Applied(env, passes[0], ms);
      PassAdds(env, passes[0], ms);
      PassKeeps(env, passes[0], ms);
      PassesAdd(env, passes[1..], next);
      AllBlocksSame(env, passes[1..], ms, next);
      MessagesConcat(Blocks(env, passes[0], ms), AllBlocks(env, passes[1..], ms));
    }
  }

  /** In the terms of a chat request: the other messages are untouched and in order, a final user
      message is still final, and the query and the previous answer are still the same ones. */
  lemma ConversationKept(env: Env, passes: seq<Pass>, ms: seq<Message>)
    requires AppliedAll(env, passes, ms).Some?
    ensures var t := AppliedAll(env, passes, ms).value;
      && NonSystem(t) == NonSystem(ms)
      && (ms != [] && Last(ms).role == "user" ==> t != [] && Last(t) == Last(ms))
      && MemoryQuery(env, t) == MemoryQuery(env, ms) && DocumentQuery(env, t) == DocumentQuery(env, ms)
      && PreviousAnswer(env, t) == PreviousAnswer(env, ms)
      && (RefersBack(env, t) <==> RefersBack(env, ms))
  {
    PassesKeep(env, passes, ms);
    var t := AppliedAll(env, passes, ms).value;
    SameEnding(ms, t);
    SameReads(env, ms, t);
  }

  // ---------- the loops ----------

  lemma FrontPrefix(ms: seq<Message>, i: nat)
    requires i < |ms|
    ensures Front(ms)[..i] == ms[..i]
  {
  }

  lemma LatestUserSuffix(ms: seq<Message>, i: nat)
    requires i <= |ms| && forall j :: i <= j < |ms| ==> ms[j].role != "user"
    ensures LatestUser(ms) == LatestUser(ms[..i])
    decreases |ms|
  {
    if i < |ms| {
      FrontPrefix(ms, i);
      LatestUserSuffix(Front(ms), i);
    } else {
      assert ms[..i] == ms;
    }
  }

  lemma LatestAnswerSuffix(env: Env, ms: seq<Message>, i: nat)
    requires i <= |ms| && forall j :: i <= j < |ms| ==> !IsAnswer(env, ms[j])
    ensures LatestAnswer(env, ms) == LatestAnswer(env, ms[..i])
    decreases |ms|
  {
    if i < |ms| {
      FrontPrefix(ms, i);
      LatestAnswerSuffix(env, Front(ms), i);
    } else {
      assert ms[..i] == ms;
    }
  }

  /** `_last_user_text` */
  method LastUserText(env: Env, ms: seq<Message>) returns (query: string)
    ensures query == DocumentQuery(env, ms)
  {
    var i := |ms|;
    while i > 0
      invariant 0 <= i <= |ms|
      invariant forall j :: i <= j < |ms| ==> ms[j].role != "user"
    {
      i := i - 1;
      if ms[i].role == "user" {
        LatestUserSuffix(ms, i + 1);
        return Strip(env.space, ContentText(ms[i].content));
      }
    }
    LatestUserSuffix(ms, 0);
    return "";
  }

  /** `_previous_assistant_answer` */
  method PreviousAssistantAnswer(env: Env, ms: seq<Message>) returns (answer: Option<string>)
    ensures answer == PreviousAnswer(env, ms)
  {
    var earlier := Front(ms);
    var i := |earlier|;
    while i > 0
      invariant 0 <= i <= |earlier|
      invariant forall j :: i <= j < |earlier| ==> !IsAnswer(env, earlier[j])
    {
      i := i - 1;
      if IsAnswer(env, earlier[i]) {
        LatestAnswerSuffix(env, earlier, i + 1);
        return Some(earlier[i].content.text);
      }
    }
    LatestAnswerSuffix(env, earlier, 0);
    return None;
  }

  /** The block in its place: without a system message, in one of its own in front; otherwise before
      the content of the first one, which is kept behind an empty line, with the white space around
      both taken off. */
  ghost predicate InjectedBlock(env: Env, block: string, ms: seq<Message>, r: seq<Message>) {
    if forall i :: 0 <= i < |ms| ==> ms[i].role != "system" then r == [Message("system", Text(block))] + ms
    else exists k :: 0 <= k < |ms| && InjectedAt(env, block, ms, r, k)
  }

  ghost predicate InjectedAt(env: Env, block: string, ms: seq<Message>, r: seq<Message>, k: nat)
    requires k < |ms|
  {
    var text := block + "\n\n" + Written(env, ms[k].content);
    && ms[k].role == "system" && (forall i :: 0 <= i < k ==> ms[i].role != "system")
    && |r| == |ms| && (forall i :: 0 <= i < |ms| && i != k ==> r[i] == ms[i])
    && r[k].role == "system" && r[k].content.Text? && Stripped(env.space, text, r[k].content.text)
  }

  lemma InjectedMeans(env: Env, block: string, ms: seq<Message>)
    ensures InjectedBlock(env, block, ms, Injected(env, block, ms))
  {
    if HasSystem(ms) {
      var k := MergeFirstMeans(env, block, ms);
      StripMeans(env.space, block + "\n\n" + Written(env, ms[k].content));
      assert InjectedAt(env, block, ms, Injected(env, block, ms), k);
    }
  }

  /** So the client's own system text is kept whole, character for character, when neither it nor the
      block has white space at its outer end. */
  lemma SystemTextKept(env: Env, block: string, ms: seq<Message>, r: seq<Message>, k: nat)
    requires k < |ms| && InjectedAt(env, block, ms, r, k) && ms[k].content.Text?
    requires block != "" && !env.space(block[0])
    requires var t := ms[k].content.text; t != "" && !env.space(t[|t| - 1])
    ensures r[k] == Message("system", Text(block + "\n\n" + ms[k].content.text))
  {
    StrippedWhole(env.space, block + "\n\n" + ms[k].content.text, r[k].content.text);
  }

  method FindQuery(env: Env, ms: seq<Message>) returns (query: string)
    ensures query == MemoryQuery(env, ms)
  {
    query := "";
    var i := |ms|;
    var found := false;
    while i > 0 && !found
      invariant 0 <= i <= |ms|
      invariant if found then query == MemoryQuery(env, ms) else query == ""
      invariant !found ==> forall j :: i <= j < |ms| ==> ms[j].role != "user"
    {
      i := i - 1;
      if ms[i].role == "user" {
        LatestUserSuffix(ms, i + 1);
        var content := ms[i].content;
        query := if content.Absent? then "" else if content.Text? then content.text else env.shown(content);
        found := true;
      }
    }
    if !found {
      LatestUserSuffix(ms, 0);
    }
  }

  /** `_inject_memories` */
  method InjectMemories(env: Env, p: Pass, ms: seq<Message>) returns (r: seq<Message>)
    requires p.Memories?
    ensures r == Applied(env, p, ms)
    ensures var query := MemoryQuery(env, ms);
            if !p.enabled || query == "" || p.search(query) == [] then r == ms
            else InjectedBlock(env, "[Memory]" + Listed(p.search(query)), ms, r)
  {
    MemoryBlockMeans(env, p, ms);
    InjectedMeans(env, "[Memory]" + Listed(p.search(MemoryQuery(env, ms))), ms);
    hide InjectedBlock, Listed, Injected, MemoryBlock, Bullets, Join;
    if !p.enabled {
      return ms;
    }
    var query := FindQuery(env, ms);
    if query == "" {
      return ms;
    }
    var memories := p.search(query);
    if memories == [] {
      return ms;
    }
    r := InjectText(env, "[Memory]\n" + Join(Bullets(memories)), ms);
  }

  lemma MergeStep(env: Env, text: string, ms: seq<Message>, i: nat)
    requires i < |ms|
    ensures ms[i..] == [ms[i]] + ms[i + 1..]
    ensures MergeFirst(env, text, ms[i..]) ==
            if ms[i].role == "system" then [Merged(env, text, ms[i])] + ms[i + 1..]
            else [ms[i]] + MergeFirst(env, text, ms[i + 1..])
    ensures HasSystem(ms[..i + 1]) <==> HasSystem(ms[..i]) || ms[i].role == "system"
  {
    assert ms[..i + 1] == ms[..i] + [ms[i]];
    assert ms[..i + 1][i] == ms[i];
    assert forall j :: 0 <= j < i ==> ms[..i + 1][j] == ms[..i][j];
  }

  method InjectText(env: Env, text: string, ms: seq<Message>) returns (r: seq<Message>)
    ensures r == Injected(env, text, ms)
  {
    hide HasSystem, MergeFirst, Merged;
    r := [];
    var injected := false;
    assert ms[0..] == ms;
    NoSystem();
    for i := 0 to |ms|
      invariant injected == HasSystem(ms[..i])
      invariant r + (if injected then ms[i..] else MergeFirst(env, text, ms[i..])) == MergeFirst(env, text, ms)
      invariant !injected ==> r == ms[..i]
    {
      MergeStep(env, text, ms, i);
      ghost var rest := if injected then ms[i + 1..] else MergeFirst(env, text, ms[i + 1..]);
      if !injected && ms[i].role == "system" {
        var m := Merged(env, text, ms[i]);
        assert r + ([m] + ms[i + 1..]) == (r + [m]) + ms[i + 1..];
        r := r + [m];
        injected := true;
      } else {
        assert r + ([ms[i]] + rest) == (r + [ms[i]]) + rest;
        r := r + [ms[i]];
      }
    }
    assert ms[..|ms|] == ms;
    MergeFirstEmpty(env, text);
    if !injected {
      r := [SystemMessage(text)] + r;
    }
  }

  lemma NoSystem()
    ensures !HasSystem([])
  {
  }

  lemma MergeFirstEmpty(env: Env, text: string)
    ensures MergeFirst(env, text, []) == []
  {
  }

  lemma AgentPromptReads(env: Env, graph: bool, ms: seq<Message>)
    ensures var built := (if graph then [SystemMessage(env.graphNote)] else []) + ms;
            PreviousAnswer(env, built) == PreviousAnswer(env, ms) && RefersBack(env, built) == RefersBack(env, ms)
  {
    var built := (if graph then [SystemMessage(env.graphNote)] else []) + ms;
    if graph {
      PrependKeeps(ms, SystemMessage(env.graphNote));
    } else {
      assert built == ms;
    }
    SameReads(env, ms, built);
  }

  lemma AgentPromptIs(env: Env, graph: bool, ms: seq<Message>)
    ensures var note := if graph then [Message("system", Text(env.graphNote))] else [];
            Applied(env, AgentPrompt(graph), ms) ==
              if PreviousAnswer(env, ms).Some? && ms != [] && ms[|ms| - 1].role == "user"
                 && ms[|ms| - 1].content.Text? && env.refersBack(ms[|ms| - 1].content.text)
              then note + ms[..|ms| - 1]
                   + [Message("system", Text(env.answerNote(PreviousAnswer(env, ms).value)))] + [ms[|ms| - 1]]
              else note + ms
  {
    hide PreviousAnswer;
    SameAnswer(env, graph, ms);
    AgentPromptReads(env, graph, ms);
    var note := if graph then [SystemMessage(env.graphNote)] else [];
    var built := note + ms;
    if PreviousAnswer(env, ms).Some? && RefersBack(env, ms) {
      var n := |built| - 1;
      assert built[..n] == note + ms[..|ms| - 1] && built[n..] == [ms[|ms| - 1]];
    }
  }

  /** `PromptBuilder.build_agent_messages` */
  method BuildAgentMessages(env: Env, ms: seq<Message>, graph: bool) returns (built: seq<Message>)
    ensures built == Applied(env, AgentPrompt(graph), ms)
    ensures var note := if graph then [Message("system", Text(env.graphNote))] else [];
            built == if PreviousAnswer(env, ms).Some? && ms != [] && ms[|ms| - 1].role == "user"
                        && ms[|ms| - 1].content.Text? && env.refersBack(ms[|ms| - 1].content.text)
                     then note + ms[..|ms| - 1]
                          + [Message("system", Text(env.answerNote(PreviousAnswer(env, ms).value)))] + [ms[|ms| - 1]]
                     else note + ms
  {
    AgentPromptIs(env, graph, ms);
    hide PreviousAnswer, RefersBack;
    built := ms;
    if graph {
      built := Insert(built, 0, SystemMessage(env.graphNote));
    }
    assert built == (if graph then [SystemMessage(env.graphNote)] else []) + ms;
    var previous := PreviousAssistantAnswer(env, built);
    if previous.Some? && RefersBack(env, built) {
      built := Insert(built, |built| - 1, SystemMessage(env.answerNote(previous.value)));
    }
  }

  /** `apply_document_collection_context`: None is its 503. */
  method ApplyDocumentContext(env: Env, p: Pass, ms: seq<Message>) returns (r: Option<seq<Message>>)
    requires p.Documents?
    ensures r == if Fails(p) then None else Some(Applied(env, p, ms))
    ensures var query := DocumentQuery(env, ms);
            r == if p.ids == [] then Some(ms)
                 else if p.service.None? then None
                 else if query == "" || p.service.value(query) == [] then Some(ms)
                 else Some([Message("system", Text(env.render(p.service.value(query))))] + ms)
  {
    if p.ids == [] {
      return Some(ms);
    }
    if p.service.None? {
      return None;
    }
    var query := LastUserText(env, ms);
    if query == "" {
      return Some(ms);
    }
    var found := p.service.value(query);
    if found == [] {
      return Some(ms);
    }
    return Some([SystemMessage(env.render(found))] + ms);
  }
}
