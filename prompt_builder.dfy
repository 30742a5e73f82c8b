/** The prompt builder: a system persona, an optional emotion section, an optional
    memory section, the recent turns of the conversation and the user's message,
    joined in a fixed order. The memory manager's `retrieve` answer and the emotion
    service's state are given. */
module Prompts {
  import opened Seqs
  import opened Text

  const DefaultPersona: string :=
    "你是一位名叫「智子」的妹妹，聪明、温柔、贴心，语气自然、亲昵。"
    + "你的任务是陪伴、解释问题、安抚情绪，不使用机械化语气。"
  const MemoryHeader: string := "【相关记忆】\n"
  const EmotionHeader: string := "【情绪状态】\n当前角色情绪为："
  const HistoryHeader: string := "【最近对话】\n"
  const UserHeader: string := "【用户消息】\n"
  const Closing: string := "请以智子的身份自然地回应。"
  const DefaultMaxHistory: int := 8

  /** What the memory manager does when asked to `retrieve(query)`: there is none,
      or it answers (None when the call raised). */
  datatype MemorySource = NoManager | Manager(answer: Option<seq<string>>)

  /** The emotion service, when there is one, and the state it reports. */
  datatype EmotionSource = NoService | Service(state: string)

  /** One turn of the conversation history. */
  datatype Turn = Turn(role: string, content: string)

  datatype Builder = Builder(
    characterCard: Option<string>,
    memory: MemorySource,
    emotion: EmotionSource,
    maxHistory: int)

  /** The entries `create_prompt_builder` reads from the application context. */
  datatype AppContext = AppContext(
    characterCard: Option<string>,
    memory: MemorySource,
    emotion: EmotionSource,
    maxHistory: Option<int>)

  /** `create_prompt_builder`: the context's entries, `max_history` 8 when absent. */
  function CreatePromptBuilder(ctx: AppContext): (b: Builder)
    ensures b.characterCard == ctx.characterCard && b.memory == ctx.memory && b.emotion == ctx.emotion
    ensures ctx.maxHistory.None? ==> b.maxHistory == DefaultMaxHistory
    ensures ctx.maxHistory.Some? ==> b.maxHistory == ctx.maxHistory.value
  {
    Builder(ctx.characterCard, ctx.memory, ctx.emotion, ctx.maxHistory.GetOr(DefaultMaxHistory))
  }

  /** `build_system_prompt`: a non-empty character card, else the default persona. */
  function BuildSystemPrompt(b: Builder): (r: string)
    ensures r != []
    ensures r == DefaultPersona <==> b.characterCard.None? || b.characterCard.value in {"", DefaultPersona}
    ensures r != DefaultPersona ==> b.characterCard == Some(r)
  {
    if b.characterCard.Some? && b.characterCard.value != "" then b.characterCard.value else DefaultPersona
  }

  /** One rendered memory line. */
  function Bullet(m: string): string { "- " + m }

  function Bullets(ms: seq<string>): (r: seq<string>)
    ensures |r| == |ms| && forall i :: 0 <= i < |ms| ==> r[i] == Bullet(ms[i])
  {
    seq(|ms|, i requires 0 <= i < |ms| => Bullet(ms[i]))
  }

  /** `build_memory_context`: empty without a manager, when `retrieve` raises or
      answers nothing; otherwise the header and one "- m" line per memory. */
  function BuildMemoryContext(b: Builder): (r: string)
    ensures r == "" <==> b.memory.NoManager? || b.memory.answer.None? || b.memory.answer.value == []
    ensures r != "" ==> MemoryHeader <= r && r[|r| - 1] == '\n'
  {
    match b.memory
    case NoManager => ""
    case Manager(answer) =>
      if answer.None? || answer.value == [] then ""
      else MemoryHeader + Join("\n", Bullets(answer.value)) + "\n"
  }

  /** Every item of a join sits between two pieces of it. */
  lemma {:induction false} JoinHasItem(sep: string, items: seq<string>, i: nat)
    requires i < |items|
    ensures exists a, c :: Join(sep, items) == a + items[i] + c
  {
    if |items| == 1 {
      assert Join(sep, items) == [] + items[0] + [];
    } else if i == 0 {
      assert Join(sep, items) == [] + items[0] + (sep + Join(sep, items[1..]));
    } else {
      JoinHasItem(sep, items[1..], i - 1);
      var a, c :| Join(sep, items[1..]) == a + items[1..][i - 1] + c;
      assert Join(sep, items) == (items[0] + sep + a) + items[i] + c;
    }
  }

  /** Each retrieved memory shows up in the memory section as a "- m" line. */
  lemma MemoryContextLists(b: Builder, i: nat)
    requires b.memory.Manager? && b.memory.answer.Some? && i < |b.memory.answer.value|
    ensures Contains(BuildMemoryContext(b), Bullet(b.memory.answer.value[i]))
  {
    var ms := b.memory.answer.value;
    JoinHasItem("\n", Bullets(ms), i);
    var a, c :| Join("\n", Bullets(ms)) == a + Bullets(ms)[i] + c;
    assert BuildMemoryContext(b) == (MemoryHeader + a) + Bullet(ms[i]) + (c + "\n");
    ContainsInfix(MemoryHeader + a, Bullet(ms[i]), c + "\n");
  }

  /** `build_emotion_prompt`: empty without a service or with an empty state. */
  function BuildEmotionPrompt(b: Builder): (r: string)
    ensures r == "" <==> b.emotion.NoService? || b.emotion.state == ""
    ensures r != "" ==> r == EmotionHeader + b.emotion.state + "\n"
  {
    match b.emotion
    case NoService => ""
    case Service(state) => if state == "" then "" else EmotionHeader + state + "\n"
  }

  /** Python's `history[-k:]`: for k > 0 the last k turns (all when fewer); for
      k == 0 the slice `[0:]`, i.e. everything; for k < 0 all but the first -k. */
  function KeepLast(history: seq<Turn>, k: int): (r: seq<Turn>)
    ensures |r| <= |history| && r == history[|history| - |r|..]
    ensures k > 0 ==> |r| == MinInt(k, |history|)
    ensures k == 0 ==> r == history
    ensures k < 0 ==> |r| == if |history| + k < 0 then 0 else |history| + k
  {
    if k > 0 then (if k >= |history| then history else history[|history| - k..])
    else if k == 0 then history
    else if -k >= |history| then []
    else history[-k..]
  }

  /** "你" for the user's turns, "智子" for every other role. */
  function Speaker(t: Turn): string {
    if t.role == "user" then "你" else "智子"
  }

  function TurnLine(t: Turn): string {
    Speaker(t) + "：" + t.content + "\n"
  }

  /** The rendered turns, one line each, in order. */
  function Lines(turns: seq<Turn>): string {
    if turns == [] then "" else Lines(turns[..|turns| - 1]) + TurnLine(turns[|turns| - 1])
  }

  /** Rendering distributes over concatenation of turn lists. */
  lemma {:induction false} LinesAppend(a: seq<Turn>, b: seq<Turn>)
    ensures Lines(a + b) == Lines(a) + Lines(b)
    decreases |b|
  {
    if b == [] {
      assert a + b == a;
    } else {
      var b0 := b[..|b| - 1];
      var ab := a + b;
      var last := TurnLine(b[|b| - 1]);
      assert Lines(ab) == Lines(a + b0) + last by {
        assert ab[..|ab| - 1] == a + b0;
        assert ab[|ab| - 1] == b[|b| - 1];
      }
      assert Lines(b) == Lines(b0) + last;
      LinesAppend(a, b0);
      AppendAssoc(Lines(a), Lines(b0), last);
    }
  }

  /** The i-th kept turn is rendered between the lines before it and those after it. */
  lemma TurnRenderedInPlace(turns: seq<Turn>, i: nat)
    requires i < |turns|
    ensures Lines(turns) == Lines(turns[..i]) + TurnLine(turns[i]) + Lines(turns[i + 1..])
  {
    assert turns == turns[..i] + [turns[i]] + turns[i + 1..];
    LinesAppend(turns[..i] + [turns[i]], turns[i + 1..]);
    LinesAppend(turns[..i], [turns[i]]);
    assert [turns[i]][..0] == [];
  }

  /** `build_history_prompt`: empty for an empty history; otherwise the header and one
      "role：content" line per kept turn. */
  method BuildHistoryPrompt(b: Builder, history: seq<Turn>) returns (s: string)
    ensures history == [] ==> s == ""
    ensures history != [] ==> s == HistoryHeader + Lines(KeepLast(history, b.maxHistory))
  {
    if history == [] {
      return "";
    }
    var useful := KeepLast(history, b.maxHistory);
    s := HistoryHeader;
    for i := 0 to |useful|
      invariant s == HistoryHeader + Lines(useful[..i])
    {
      var role := if useful[i].role == "user" then "你" else "智子";
      var line := role + "：" + useful[i].content + "\n";
      assert line == TurnLine(useful[i]);
      assert Lines(useful[..i + 1]) == Lines(useful[..i]) + line by {
        assert useful[..i + 1][..i] == useful[..i];
      }
      AppendAssoc(HistoryHeader, Lines(useful[..i]), line);
      s := s + line;
    }
    assert useful[..|useful|] == useful;
  }

  /** The final prompt around its middle sections. */
  function PromptText(system: string, sections: string, userQuery: string): string {
    system + "\n\n" + sections + UserHeader + userQuery + "\n\n" + Closing
  }

  /** The emotion, memory and history sections, in that order. */
  function Sections(b: Builder, history: seq<Turn>): string {
    BuildEmotionPrompt(b) + BuildMemoryContext(b) + HistorySection(b, history)
  }

  /** The history section as a value. */
  function HistorySection(b: Builder, history: seq<Turn>): string {
    if history == [] then "" else HistoryHeader + Lines(KeepLast(history, b.maxHistory))
  }

  /** `build_prompt`: the sections in their fixed order; a missing history is empty. */
  method BuildPrompt(b: Builder, userQuery: string, history: Option<seq<Turn>>) returns (prompt: string)
    ensures prompt == PromptText(BuildSystemPrompt(b), Sections(b, history.GetOr([])), userQuery)
  {
    var systemPrompt := BuildSystemPrompt(b);
    var memoryPrompt := BuildMemoryContext(b);
    var emotionPrompt := BuildEmotionPrompt(b);
    var historyPrompt := BuildHistoryPrompt(b, history.GetOr([]));
    var sections := emotionPrompt + memoryPrompt + historyPrompt;
    assert sections == Sections(b, history.GetOr([]));
    prompt := PromptText(systemPrompt, sections, userQuery);
  }

  /** The prompt begins with the persona and a blank line, and ends with the user's
      message and the closing line. */
  lemma PromptFrame(system: string, sections: string, userQuery: string)
    ensures var p := PromptText(system, sections, userQuery);
            var tail := UserHeader + userQuery + "\n\n" + Closing;
            && system + "\n\n" <= p
            && |tail| <= |p| && p[|p| - |tail|..] == tail
  {
    var head := system + "\n\n";
    var tail := UserHeader + userQuery + "\n\n" + Closing;
    var p := PromptText(system, sections, userQuery);
    assert p == head + sections + tail;
    assert p[..|head|] == head;
    assert p[|head + sections|..] == tail;
  }

  /** Without emotion service, memory manager or history, nothing stands between the
      persona and the user's message. */
  lemma BarePrompt(b: Builder, history: Option<seq<Turn>>)
    requires b.emotion.NoService? && b.memory.NoManager? && history.GetOr([]) == []
    ensures Sections(b, history.GetOr([])) == ""
  {
  }

  /** An empty emotion state or an empty memory answer drops only that section. */
  lemma SectionsSkipEmpty(b: Builder, history: seq<Turn>)
    ensures b.emotion.NoService? || b.emotion.state == "" ==>
              Sections(b, history) == BuildMemoryContext(b) + HistorySection(b, history)
    ensures b.memory.NoManager? || b.memory.answer.None? || b.memory.answer == Some([]) ==>
              Sections(b, history) == BuildEmotionPrompt(b) + HistorySection(b, history)
  {
    var emotion, memory := BuildEmotionPrompt(b), BuildMemoryContext(b);
    if b.emotion.NoService? || b.emotion.state == "" {
      assert emotion == "";
      assert emotion + memory == memory;
    }
    if b.memory.NoManager? || b.memory.answer.None? || b.memory.answer == Some([]) {
      assert memory == "";
      assert emotion + memory == emotion;
    }
  }
}
