/**
 * The retrieval-augmented prompt shared by the chat route and the AI
 * engine: the contract passages the match RPC returns are joined into the
 * prompt's context, a fixed sentence stands in when there are none, and the
 * prompt quotes the merchant's settlement floor as a percentage.
 *
 * The external calls a handler makes are recorded as `Call`s, in order.
 */
module Rag {
  import opened Js
  import opened Store
  import Checkout

  /** A row of `match_contract_embeddings`; only `content` is read. */
  datatype MatchRow = MatchRow(content: string)

  datatype ChatMessage = ChatMessage(role: string, content: string)

  /** What the chat model is given besides the system prompt: the whole
      message history, or a single prompt. */
  datatype ModelInput = History(messages: seq<ChatMessage>) | PromptOnly(prompt: string)

  /** The facts the system prompt interpolates; its wording is left out. */
  datatype SystemPrompt = SystemPrompt(
    merchantName: string,
    debtorName: string,
    currency: string,
    totalDebt: real,
    strictnessLevel: int,
    floorPercent: real,
    context: string)

  datatype Call =
    | EmbedCall(text: string)
    | MatchCall(queryEmbedding: seq<real>, threshold: real, count: int, contractId: string)
    | ModelCall(system: SystemPrompt, input: ModelInput)

  datatype Reply = Text(status: int, body: string) | Streamed(text: string) | Threw(message: string)

  const Separator := "\n---\n"
  const MatchThreshold: real := 0.5
  const MatchCount: int := 5

  /** `matches.map((m) => m.content)` */
  function Contents(ms: seq<MatchRow>): (r: seq<string>)
    ensures |r| == |ms| && forall i :: 0 <= i < |ms| ==> r[i] == ms[i].content
  {
    seq(|ms|, i requires 0 <= i < |ms| => ms[i].content)
  }

  /** The context after `if (matches && matches.length > 0)`: the joined
      contents, else the initial empty string. */
  function Context(matches: Option<seq<MatchRow>>): string {
    if matches.Some? && |matches.value| > 0 then Join(Contents(matches.value), Separator) else ""
  }

  /** `s || fallback` on strings. */
  function OrElse(s: string, fallback: string): (r: string)
    ensures r == fallback || r == s
    ensures r == fallback <==> s == "" || s == fallback
  {
    if s == "" then fallback else s
  }

  /** The text the prompt shows: no matches give the fallback; several
      matches give their contents joined by "\n---\n", which is never
      empty; a single match gives its content unless that is empty. */
  lemma ShownContext(matches: Option<seq<MatchRow>>, fallback: string)
    ensures matches.None? || matches.value == [] ==> OrElse(Context(matches), fallback) == fallback
    ensures matches.Some? && |matches.value| == 1 ==>
      OrElse(Context(matches), fallback) == (if matches.value[0].content == "" then fallback else matches.value[0].content)
    ensures matches.Some? && |matches.value| >= 2 ==>
      OrElse(Context(matches), fallback) == Join(Contents(matches.value), Separator)
  {
    if matches.Some? && |matches.value| >= 2 {
      JoinLength(Contents(matches.value), Separator);
    }
  }

  /** The contents appear in the order the RPC returned them: one more
      match extends the context by the separator and its content. */
  lemma ContextInOrder(ms: seq<MatchRow>, m: MatchRow)
    requires ms != []
    ensures Context(Some(ms + [m])) == Context(Some(ms)) + Separator + m.content
  {
    assert Contents(ms + [m]) == Contents(ms) + [m.content];
    JoinSnoc(Contents(ms), m.content, Separator);
  }

  /** Two matches: the first content, the separator, the second. */
  lemma TwoMatches(a: MatchRow, b: MatchRow)
    ensures Context(Some([a, b])) == a.content + "\n---\n" + b.content
  {
    var parts := Contents([a, b]);
    assert parts == [a.content, b.content];
    assert parts[1..] == [b.content];
  }

  /** `${merchant.settlement_floor * 100}%` */
  function FloorPercent(m: Merchant): real {
    m.settlementFloor * 100.0
  }

  /** The facts both system prompt templates interpolate. */
  function PromptFor(m: Merchant, d: Debtor, shownContext: string): SystemPrompt {
    SystemPrompt(m.name, d.name, d.currency, d.totalDebt, m.strictnessLevel, FloorPercent(m), shownContext)
  }

  /** Two prompts agree exactly when the merchant's name, strictness and
      floor, the debtor's name, currency and debt, and the shown context
      agree: no other column of either row reaches the model, and the
      quoted percentage determines the floor it was rendered from. */
  lemma PromptFields(m1: Merchant, d1: Debtor, c1: string, m2: Merchant, d2: Debtor, c2: string)
    ensures PromptFor(m1, d1, c1) == PromptFor(m2, d2, c2) <==>
      && m1.name == m2.name && m1.strictnessLevel == m2.strictnessLevel
      && m1.settlementFloor == m2.settlementFloor
      && d1.name == d2.name && d1.currency == d2.currency && d1.totalDebt == d2.totalDebt
      && c1 == c2
    ensures PromptFor(m1, d1, c1).floorPercent / 100.0 == m1.settlementFloor
  {
  }

  /** The prompt quotes the merchant's raw floor, while checkout enforces
      at least 70%: for a merchant floor under 70% the agent is told a
      lower settlement than checkout accepts, and otherwise the two agree. */
  lemma PromptFloorDiffersFromCheckout(m: Merchant, totalDebt: real)
    requires totalDebt > 0.0
    ensures FloorPercent(m) / 100.0 * totalDebt < Checkout.EffectiveFloor(totalDebt, m.settlementFloor)
        <==> m.settlementFloor < 0.7
    ensures m.settlementFloor >= 0.7 ==>
      FloorPercent(m) / 100.0 * totalDebt == Checkout.EffectiveFloor(totalDebt, m.settlementFloor)
  {
    assert FloorPercent(m) / 100.0 == m.settlementFloor;
    if m.settlementFloor < 0.7 {
      assert Max(0.7, m.settlementFloor) == 0.7;
      assert m.settlementFloor * totalDebt < 0.7 * totalDebt;
    } else {
      assert Max(0.7, m.settlementFloor) == m.settlementFloor;
    }
  }
}
