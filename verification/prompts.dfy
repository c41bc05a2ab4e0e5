/** The prompt builders: the three-turn summarisation prompt and the
    question-answering template handed to the retrieval chain. */
module Prompts {
  import opened Chat
  import opened Text

  /** The marker placed on both sides of the text to summarise. */
  const Delimiter := "####"

  /** The word limit used when the caller gives none. */
  const DefaultWordLimit := 250

  /** The fixed assistant turn that primes the answer. */
  const SummaryPrimer := "Helpful Summarized content:\n"

  /** The system turn, in three fixed pieces around the delimiter and the
      word limit. The source's backslash continuations join the lines, so
      each later line starts with its eight spaces of indentation, and the
      last line keeps its newline and the indentation before the closing
      quotes. */
  const SummaryIntro := "You are an helpful assistant and follows given instructions.         Summarize the text content provided in between "
  const SummaryLimitIntro := " characters.         Summarized content should be not more than "
  const SummaryOutro := " words.         Summarized content must has key points present in the provided text.\n        "

  /** The system turn for a word limit, written in decimal as `str` writes
      an int: it names the delimiter and states the word limit. */
  function SummarySystemMessage(wordLimit: int): (r: string)
    ensures Contains(r, Delimiter) && Contains(r, IntToDecimal(wordLimit))
  {
    ContainsSecondAndFourth(SummaryIntro, Delimiter, SummaryLimitIntro, IntToDecimal(wordLimit), SummaryOutro);
    SummaryIntro + Delimiter + SummaryLimitIntro + IntToDecimal(wordLimit) + SummaryOutro
  }

  /** `summarize_text`: system instructions, the delimited text as user turn,
      and the primer as assistant turn. */
  function SummarizeText(textInput: string, wordLimit: int := DefaultWordLimit): (r: seq<Message>)
    ensures |r| == 3
    ensures r[0].role == System && r[1].role == User && r[2].role == Assistant
    ensures r[1].content == Delimiter + textInput + Delimiter
    ensures r[2].content == SummaryPrimer
  {
    [Message(System, SummarySystemMessage(wordLimit)),
     Message(User, Delimiter + textInput + Delimiter),
     Message(Assistant, SummaryPrimer)]
  }

  /** The text to summarise reaches only the user turn: two calls with the
      same word limit agree on the system and assistant turns. */
  lemma SummarizeTextInputOnlyInUserTurn(t1: string, t2: string, wordLimit: int)
    ensures SummarizeText(t1, wordLimit)[0] == SummarizeText(t2, wordLimit)[0]
    ensures SummarizeText(t1, wordLimit)[2] == SummarizeText(t2, wordLimit)[2]
    ensures t1 != t2 ==> SummarizeText(t1, wordLimit)[1] != SummarizeText(t2, wordLimit)[1]
  {
    var u1, u2 := SummarizeText(t1, wordLimit)[1].content, SummarizeText(t2, wordLimit)[1].content;
    if t1 != t2 {
      SummarizeTextUndelimit(t1, wordLimit);
      SummarizeTextUndelimit(t2, wordLimit);
      assert u1[4..|u1| - 4] != u2[4..|u2| - 4];
    }
  }

  /** The user turn gives the text back: dropping the delimiter from both
      ends recovers it unchanged. */
  lemma SummarizeTextUndelimit(textInput: string, wordLimit: int)
    ensures var u := SummarizeText(textInput, wordLimit)[1].content;
      && |u| == |textInput| + 2 * |Delimiter|
      && u[..|Delimiter|] == Delimiter
      && u[|u| - |Delimiter|..] == Delimiter
      && u[|Delimiter|..|u| - |Delimiter|] == textInput
  {
  }

  /** In `a + b + c + d + e`, both `b` and `d` occur. */
  lemma ContainsSecondAndFourth(a: string, b: string, c: string, d: string, e: string)
    ensures Contains(a + b + c + d + e, b)
    ensures Contains(a + b + c + d + e, d)
  {
    assert a + b + c + d + e == a + b + (c + d + e);
    ContainsMiddle(a, b, c + d + e);
    ContainsMiddle(a + b + c, d, e);
  }

  /** Different word limits give different system turns. */
  lemma SummarySystemMessageInjective(w1: int, w2: int)
    requires SummarySystemMessage(w1) == SummarySystemMessage(w2)
    ensures w1 == w2
  {
    var head := SummaryIntro + Delimiter + SummaryLimitIntro;
    var d1, d2 := IntToDecimal(w1), IntToDecimal(w2);
    var m := SummarySystemMessage(w1);
    assert m == head + d1 + SummaryOutro == head + d2 + SummaryOutro;
    assert |d1| == |d2|;
    assert d1 == m[|head|..|head| + |d1|] == d2;
    IntToDecimalInjective(w1, w2);
  }

  /** Without a word limit the system turn asks for at most 250 words. */
  lemma SummarizeTextDefaultLimit(textInput: string)
    ensures SummarizeText(textInput) == SummarizeText(textInput, 250)
    ensures Contains(SummarizeText(textInput)[0].content, "250")
  {
    DefaultWordLimitDecimal();
  }

  /** The default limit is written as "250". */
  lemma DefaultWordLimitDecimal()
    ensures IntToDecimal(DefaultWordLimit) == "250"
  {
    assert NatToDecimal(2) == "2";
    assert NatToDecimal(25) == NatToDecimal(2) + ['5'];
    assert NatToDecimal(250) == NatToDecimal(25) + ['0'];
  }

  /** A LangChain prompt template: its declared variables and its text. */
  datatype PromptTemplate = PromptTemplate(inputVariables: seq<string>, template: string)

  /** The template text before, between and after the two placeholders,
      one source line at a time: each later line keeps the space that ends
      the previous one and its own eight spaces of indentation. */
  const QaInstruction := "Use the following pieces of context and answer the question at the end."
  const QaIgnorance := "         If you don't know the answer, just say you don't know."
  const QaNoInvention := "         Do not try to make up an answer."
  const QaFollowQuery := "         Follow the query instructions carefully while answering the query."
  const QaLength := "         Use maximum of ten to fifteen sentences if user does not provide any limitation on completion length."
  const QaConcise := "         Keep the answer concise as possible and should be helpful."
  const QaHarmless := "         Answer should not contain any harmful language."
  const QaContextLabel := "         Context: "
  const QaHead := QaInstruction + QaIgnorance + QaNoInvention + QaFollowQuery + QaLength + QaConcise + QaHarmless + QaContextLabel
  const QaMiddle := "         Question: "
  const QaTail := "         Helpful Answer:         "

  /** The placeholder for a template variable. */
  function Placeholder(name: string): string
  {
    "{" + name + "}"
  }

  /** `prompt_doc_qa`: the question-answering template over `context` and
      `question`. */
  function PromptDocQa(): (r: PromptTemplate)
    ensures r.inputVariables == ["context", "question"]
  {
    PromptTemplate(["context", "question"], QaHead + Placeholder("context") + QaMiddle + Placeholder("question") + QaTail)
  }

  /** In `head + a + mid + b + tail`, `a` occurs before `b`. */
  lemma OccursInOrder(head: string, a: string, mid: string, b: string, tail: string)
    requires a != []
    ensures var t := head + a + mid + b + tail;
      exists i, j | 0 <= i < j <= |t| :: OccursAt(t, a, i) && OccursAt(t, b, j)
  {
    var t := head + a + mid + b + tail;
    var i, j := |head|, |head + a + mid|;
    assert t[i..i + |a|] == a;
    assert t[j..j + |b|] == b;
    assert OccursAt(t, a, i) && OccursAt(t, b, j);
  }

  /** Every declared variable has its placeholder in the template, and the
      context comes before the question. */
  lemma PromptDocQaPlaceholders()
    ensures forall v | v in PromptDocQa().inputVariables :: Contains(PromptDocQa().template, Placeholder(v))
    ensures exists i, j | 0 <= i < j <= |PromptDocQa().template| ::
              OccursAt(PromptDocQa().template, Placeholder("context"), i) &&
              OccursAt(PromptDocQa().template, Placeholder("question"), j)
  {
    ContainsSecondAndFourth(QaHead, Placeholder("context"), QaMiddle, Placeholder("question"), QaTail);
    OccursInOrder(QaHead, Placeholder("context"), QaMiddle, Placeholder("question"), QaTail);
  }
}
