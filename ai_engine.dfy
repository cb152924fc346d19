/**
 * `getDebtorChatResponse`: the agent's answer to a single debtor message.
 * Unlike the chat route it embeds the message only when the merchant has a
 * contract, uses its own fallback sentence, gives the model the message
 * alone (no history) and writes nothing.
 *
 * `Respond` specifies it; `GetDebtorChatResponse` is the function as
 * written, with `context` reassigned after the lookups.
 */
module AiEngine {
  import opened Js
  import opened Store
  import opened AiProvider
  import opened Rag
  import ChatRoute

  const Fallback := "No specific contract context found. Use general empathetic but firm principles."

  datatype Answer = Answer(reply: Reply, calls: seq<Call>)

  function Respond(t: Tables, debtorId: string, message: string, embed: string -> EmbedResult,
                   matchRpc: (seq<real>, real, int, string) -> Option<seq<MatchRow>>,
                   generate: (SystemPrompt, ModelInput) -> string): Answer {
    match DebtorById(t.debtors, debtorId)
    case None => Answer(Threw("Debtor not found"), [])
    case Some(d) =>
      match MerchantOf(t.merchants, d)
      case None => Answer(Threw("Cannot read properties of null (reading 'id')"), [])
      case Some(m) =>
        var contract := LatestContract(t.contracts, m.id);
        if contract.Some? && embed(message).EmbedFailed? then
          Answer(Threw(embed(message).message), [EmbedCall(message)])
        else
          var retrieval :=
            if contract.Some? then [EmbedCall(message), MatchCall(embed(message).v, MatchThreshold, MatchCount, contract.value.id)]
            else [];
          var context :=
            if contract.Some? then Context(matchRpc(embed(message).v, MatchThreshold, MatchCount, contract.value.id)) else "";
          var system := PromptFor(m, d, OrElse(context, Fallback));
          Answer(Streamed(generate(system, PromptOnly(message))), retrieval + [ModelCall(system, PromptOnly(message))])
  }

  /** A missing debtor throws "Debtor not found" before any call. */
  lemma MissingDebtor(t: Tables, debtorId: string, message: string, embed: string -> EmbedResult,
                      matchRpc: (seq<real>, real, int, string) -> Option<seq<MatchRow>>,
                      generate: (SystemPrompt, ModelInput) -> string)
    requires DebtorById(t.debtors, debtorId).None?
    ensures Respond(t, debtorId, message, embed, matchRpc, generate) == Answer(Threw("Debtor not found"), [])
  {
  }

  /** The message is embedded only when the merchant has a contract; then
      the match RPC runs on the most recent contract with threshold 0.5 and
      count 5. Without a contract the only call is the model's, and its
      prompt carries the fallback sentence. Either way the model is given
      the single message and no history. */
  lemma EmbedsOnlyWithContract(t: Tables, debtorId: string, message: string, embed: string -> EmbedResult,
                               matchRpc: (seq<real>, real, int, string) -> Option<seq<MatchRow>>,
                               generate: (SystemPrompt, ModelInput) -> string)
    requires DebtorById(t.debtors, debtorId).Some?
    requires MerchantOf(t.merchants, DebtorById(t.debtors, debtorId).value).Some?
    ensures var d := DebtorById(t.debtors, debtorId).value;
      var m := MerchantOf(t.merchants, d).value;
      var contract := LatestContract(t.contracts, m.id);
      var a := Respond(t, debtorId, message, embed, matchRpc, generate);
      && (EmbedCall(message) in a.calls <==> contract.Some?)
      && (contract.None? ==>
            a.calls == [ModelCall(PromptFor(m, d, Fallback), PromptOnly(message))]
            && a.reply == Streamed(generate(PromptFor(m, d, Fallback), PromptOnly(message))))
      && (contract.Some? && embed(message).Vector? ==>
            && a.calls[1] == MatchCall(embed(message).v, 0.5, 5, contract.value.id)
            && |a.calls| == 3)
      && (forall c :: c in a.calls && c.ModelCall? ==> c.input == PromptOnly(message))
  {
  }

  /** The two handlers fall back to different sentences. */
  lemma FallbacksDiffer()
    ensures Fallback != ChatRoute.Fallback
  {
    assert |Fallback| != |ChatRoute.Fallback|;
  }

  /** The function as written: `embed` is `generateEmbedding`, `matchRpc`
      the `match_contract_embeddings` RPC and `generate` the model. */
  method GetDebtorChatResponse(db: Db, debtorId: string, message: string, embed: string -> EmbedResult,
                               matchRpc: (seq<real>, real, int, string) -> Option<seq<MatchRow>>,
                               generate: (SystemPrompt, ModelInput) -> string)
    returns (reply: Reply, calls: seq<Call>)
    ensures Answer(reply, calls) == Respond(db.Snapshot(), debtorId, message, embed, matchRpc, generate)
  {
    var debtor := DebtorById(db.debtors, debtorId);
    if debtor.None? {
      return Threw("Debtor not found"), [];
    }
    var merchant := MerchantOf(db.merchants, debtor.value);
    if merchant.None? {
      return Threw("Cannot read properties of null (reading 'id')"), [];
    }
    var m := merchant.value;
    var contract := LatestContract(db.contracts, m.id);

    calls := [];
    var context := "";
    if contract.Some? {
      calls := [EmbedCall(message)];
      var queryEmbedding := embed(message);
      if queryEmbedding.EmbedFailed? {
        return Threw(queryEmbedding.message), calls;
      }
      calls := calls + [MatchCall(queryEmbedding.v, MatchThreshold, MatchCount, contract.value.id)];
      var matches := matchRpc(queryEmbedding.v, MatchThreshold, MatchCount, contract.value.id);
      if matches.Some? && |matches.value| > 0 {
        context := Join(Contents(matches.value), Separator);
      }
    }

    var system := PromptFor(m, debtor.value, OrElse(context, Fallback));
    calls := calls + [ModelCall(system, PromptOnly(message))];
    reply := Streamed(generate(system, PromptOnly(message)));
  }
}
