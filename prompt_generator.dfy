/** The chat prompt of the first-generation pipeline: the persona text (with the
    hobby passages cut out in the scholar states), the state and its description,
    the retrieved memories and the user's message, laid into a fixed template. The
    persona text, the state description and the retrieval answer are given. */
module ChatPrompt {
  import opened Seqs
  import opened Text

  const ToyCraze: string := "- 对限定玩具 / 机甲极度狂热，尤其是「蜂黄泉」。"
  const KidsMeal: string := "- 为了买限定玩具会忍辱点儿童套餐并喊羞耻台词。"
  const OtakuMode: string :=
    "S5：宅女模式（机甲狂热）\n    - 听到机甲 / 蜂黄泉 / 限定玩具立刻兴奋。\n    - 强行安利模型给用户。"
  const ScholarParagraph: string :=
    "② 学者面：成熟、专业、冷静、逻辑严密。\n    - 工作模式下像一位经验老练的研究员。\n    - 能清晰解释复杂物理、AI、量子理论。\n    - 做过大量高强度计算，偶尔会「脑袋过热」。"
  const ScholarNote: string := "\n    - 专注于学术问题，不会提及与学术无关的个人爱好。"
  const MemoryHeader: string := "【以下是与当前对话相关的历史记忆】\n"

  /** The states in which the persona is filtered. */
  predicate ScholarState(state: string) {
    state == "S2" || state == "explain"
  }

  /** The three hobby passages deleted, in this order. */
  function WithoutHobbies(persona: string): string {
    ReplaceAll(ReplaceAll(ReplaceAll(persona, ToyCraze, ""), KidsMeal, ""), OtakuMode, "")
  }

  /** The persona filter: unchanged outside the scholar states; in them, the three
      deletions and then the scholar paragraph extended by its note. */
  function FilterPersona(persona: string, state: string): (r: string)
    ensures !ScholarState(state) ==> r == persona
    ensures ScholarState(state) ==>
              r == ReplaceAll(WithoutHobbies(persona), ScholarParagraph, ScholarParagraph + ScholarNote)
  {
    if ScholarState(state) then
      ReplaceAll(WithoutHobbies(persona), ScholarParagraph, ScholarParagraph + ScholarNote)
    else persona
  }

  /** A persona holding none of the four passages comes through every state as is. */
  lemma PlainPersonaUnfiltered(persona: string, state: string)
    requires !Contains(persona, ToyCraze) && !Contains(persona, KidsMeal)
    requires !Contains(persona, OtakuMode) && !Contains(persona, ScholarParagraph)
    ensures FilterPersona(persona, state) == persona
  {
  }

  /** In a scholar state, a scholar paragraph that survives the deletions carries the
      note afterwards. */
  lemma ScholarNoteAdded(persona: string, state: string)
    requires ScholarState(state) && Contains(WithoutHobbies(persona), ScholarParagraph)
    ensures Contains(FilterPersona(persona, state), ScholarParagraph + ScholarNote)
  {
    ReplaceAllShowsRep(WithoutHobbies(persona), ScholarParagraph, ScholarParagraph + ScholarNote);
  }

  /** Each memory on its own line, in order. */
  function MemoryLines(docs: seq<string>): string {
    if docs == [] then "" else MemoryLines(docs[..|docs| - 1]) + docs[|docs| - 1] + "\n"
  }

  /** The memory block: empty when the retrieval answer is falsy or lists no document
      rows; otherwise the header and the first row's documents. `answer` is the
      `documents` entry of the retrieval result, None when the result is falsy. */
  function MemorySection(answer: Option<seq<seq<string>>>): string {
    if answer.None? || answer.value == [] then "" else MemoryHeader + MemoryLines(answer.value[0])
  }

  /** The memory block built line by line. */
  method RenderMemories(answer: Option<seq<seq<string>>>) returns (context: string)
    ensures context == MemorySection(answer)
  {
    context := "";
    if answer.Some? && answer.value != [] {
      context := MemoryHeader;
      var docs := answer.value[0];
      for i := 0 to |docs|
        invariant context == MemoryHeader + MemoryLines(docs[..i])
      {
        context := context + docs[i] + "\n";
        assert docs[..i + 1][..i] == docs[..i];
      }
      assert docs[..|docs|] == docs;
    }
  }

  /** Rendering distributes over concatenation of document lists. */
  lemma {:induction false} MemoryLinesAppend(a: seq<string>, b: seq<string>)
    ensures MemoryLines(a + b) == MemoryLines(a) + MemoryLines(b)
    decreases |b|
  {
    if b == [] {
      assert a + b == a;
    } else {
      var b0 := b[..|b| - 1];
      assert (a + b)[..|a + b| - 1] == a + b0;
      MemoryLinesAppend(a, b0);
    }
  }

  /** The documents' lengths plus one newline each. */
  function TotalLength(docs: seq<string>): nat {
    if docs == [] then 0 else TotalLength(docs[..|docs| - 1]) + |docs[|docs| - 1]| + 1
  }

  /** Every line holds one more character than its document. */
  lemma {:induction false} MemoryLinesLength(docs: seq<string>)
    ensures |MemoryLines(docs)| == TotalLength(docs)
  {
    if docs != [] {
      MemoryLinesLength(docs[..|docs| - 1]);
    }
  }

  /** The no-collection answer of the legacy store (`[[]]`) still yields the header,
      with no memory lines under it. */
  lemma EmptyRowGivesBareHeader()
    ensures MemorySection(Some([[]])) == MemoryHeader
  {
  }

  /** Only the first row is rendered: later rows never change the block. */
  lemma OnlyFirstRow(row: seq<string>, more: seq<seq<string>>)
    ensures MemorySection(Some([row] + more)) == MemorySection(Some([row]))
  {
  }

  /** `generate_chat_prompt`: the template, with the filtered persona, the state, its
      description, the memory block and the user's message in their places. */
  method GenerateChatPrompt(userMsg: string, state: string, persona: string, stateInfo: string,
                            answer: Option<seq<seq<string>>>)
    returns (prompt: string)
    ensures prompt == Template(FilterPersona(persona, state), state, stateInfo, MemorySection(answer), userMsg)
  {
    var filtered := FilterPersona(persona, state);
    var memoryContext := RenderMemories(answer);
    prompt := Template(filtered, state, stateInfo, memoryContext, userMsg);
  }

  const Indent: string := "\n        "
  /** The reply requirements that close every prompt. */
  const Requirements: string :=
    "\n        【回复要求】\n        1. 保持智子的角色设定和当前状态\n        2. 回复简洁明了，控制在2-3句话，不要超过100字\n        3. 语言风格符合妹妹的身份，自然亲切\n        4. 避免冗长的解释和复杂的句式\n        智子："

  /** The part between the persona and the user's message. */
  function Middle(state: string, stateInfo: string, memory: string): string {
    "\n        \n        【当前状态：" + state + "】\n        " + stateInfo
    + "\n        \n        " + memory + "\n        \n        【当前对话】\n        "
  }

  /** The fixed prompt template. */
  function Template(persona: string, state: string, stateInfo: string, memory: string, userMsg: string): string {
    Indent + persona + Middle(state, stateInfo, memory) + ("用户：" + userMsg) + Requirements
  }

  /** The template opens with the persona and ends with the user's message followed
      by the reply requirements, whatever the pieces hold. */
  lemma TemplatePlaces(persona: string, state: string, stateInfo: string, memory: string, userMsg: string)
    ensures var p := Template(persona, state, stateInfo, memory, userMsg);
            && Indent + persona <= p
            && |"用户：" + userMsg + Requirements| <= |p|
            && p[|p| - |"用户：" + userMsg + Requirements|..] == "用户：" + userMsg + Requirements
  {
    var p := Template(persona, state, stateInfo, memory, userMsg);
    var front := Indent + persona;
    var mid := Middle(state, stateInfo, memory);
    var tail := ("用户：" + userMsg) + Requirements;
    assert p == front + mid + tail;
    assert p[..|front|] == front;
    assert p[|front + mid|..] == tail;
  }
}
