/**
 * `POST /api/chat`: one turn of the debtor's conversation with the
 * recovery agent. The handler looks the debtor up, embeds the last message,
 * retrieves passages of the merchant's most recent contract, streams the
 * model's answer to the whole history, and when the stream finishes
 * records the user's message and the answer in `conversations`.
 *
 * The embedder, the match RPC and the model are oracles; the stream is
 * reduced to the text it finishes with. `Converse` specifies the handler
 * and `Post` is the handler.
 */
module ChatRoute {
  import opened Js
  import opened Store
  import opened AiProvider
  import opened Rag

  const Fallback := "No specific contract clauses found. Rely on standard professional debt recovery principles."

  datatype Exchange = Exchange(tables: Tables, reply: Reply, calls: seq<Call>)

  /** The `[user, assistant]` rows `onFinish` inserts. */
  function TurnRows(debtorId: string, lastMessage: string, answer: string): seq<Turn> {
    [Turn(debtorId, "user", lastMessage), Turn(debtorId, "assistant", answer)]
  }

  function Converse(t: Tables, messages: seq<ChatMessage>, debtorId: string, embed: string -> EmbedResult,
                    matchRpc: (seq<real>, real, int, string) -> Option<seq<MatchRow>>,
                    generate: (SystemPrompt, ModelInput) -> string, insertFault: Option<DbError>): Exchange {
    if messages == [] then Exchange(t, Threw("Cannot read properties of undefined (reading 'content')"), [])
    else
      var lastMessage := messages[|messages| - 1].content;
      match DebtorById(t.debtors, debtorId)
      case None => Exchange(t, Text(404, "Debtor not found"), [])
      case Some(d) =>
        match embed(lastMessage)
        case EmbedFailed(msg) => Exchange(t, Threw(msg), [EmbedCall(lastMessage)])
        case Vector(q) =>
          match MerchantOf(t.merchants, d)
          case None => Exchange(t, Threw("Cannot read properties of null (reading 'id')"), [EmbedCall(lastMessage)])
          case Some(m) =>
            var contract := LatestContract(t.contracts, m.id);
            var retrieval := if contract.Some? then [MatchCall(q, MatchThreshold, MatchCount, contract.value.id)] else [];
            var context := if contract.Some? then Context(matchRpc(q, MatchThreshold, MatchCount, contract.value.id)) else "";
            var system := PromptFor(m, d, OrElse(context, Fallback));
            var answer := generate(system, History(messages));
            var after := if insertFault.Some? then t
                         else t.(conversations := t.conversations + TurnRows(debtorId, lastMessage, answer));
            Exchange(after, Streamed(answer), [EmbedCall(lastMessage)] + retrieval + [ModelCall(system, History(messages))])
  }

  // ---------------------------------------------------------------------
  // Properties
  // ---------------------------------------------------------------------

  /** An unknown debtor is answered 404 before any embedding or model
      call, and nothing is written. */
  lemma UnknownDebtor(t: Tables, messages: seq<ChatMessage>, debtorId: string, embed: string -> EmbedResult,
                      matchRpc: (seq<real>, real, int, string) -> Option<seq<MatchRow>>,
                      generate: (SystemPrompt, ModelInput) -> string, insertFault: Option<DbError>)
    requires messages != [] && DebtorById(t.debtors, debtorId).None?
    ensures Converse(t, messages, debtorId, embed, matchRpc, generate, insertFault) ==
      Exchange(t, Text(404, "Debtor not found"), [])
  {
  }

  /** Only the `conversations` table is ever written, and only by
      appending. */
  lemma WritesOnlyConversations(t: Tables, messages: seq<ChatMessage>, debtorId: string, embed: string -> EmbedResult,
                                matchRpc: (seq<real>, real, int, string) -> Option<seq<MatchRow>>,
                                generate: (SystemPrompt, ModelInput) -> string, insertFault: Option<DbError>)
    ensures var e := Converse(t, messages, debtorId, embed, matchRpc, generate, insertFault);
      && e.tables == t.(conversations := e.tables.conversations)
      && e.tables.conversations[..|t.conversations|] == t.conversations
  {
  }

  /** A streamed answer: the last message was embedded first; the match RPC
      was called exactly when the merchant has a contract, on the most
      recent one, with threshold 0.5 and count 5; the model saw the whole
      history; and, unless the insert failed, exactly the rows
      (user, last message) and (assistant, answer) were appended. */
  lemma StreamedTurn(t: Tables, messages: seq<ChatMessage>, debtorId: string, embed: string -> EmbedResult,
                     matchRpc: (seq<real>, real, int, string) -> Option<seq<MatchRow>>,
                     generate: (SystemPrompt, ModelInput) -> string, insertFault: Option<DbError>)
    requires Converse(t, messages, debtorId, embed, matchRpc, generate, insertFault).reply.Streamed?
    ensures messages != [] && DebtorById(t.debtors, debtorId).Some?
    ensures var e := Converse(t, messages, debtorId, embed, matchRpc, generate, insertFault);
      var last := messages[|messages| - 1].content;
      var d := DebtorById(t.debtors, debtorId).value;
      && MerchantOf(t.merchants, d).Some? && embed(last).Vector?
      && var m := MerchantOf(t.merchants, d).value;
      var contract := LatestContract(t.contracts, m.id);
      var system := e.calls[|e.calls| - 1].system;
      && e.calls[0] == EmbedCall(last)
      && |e.calls| == (if contract.Some? then 3 else 2)
      && (contract.Some? ==> e.calls[1] == MatchCall(embed(last).v, 0.5, 5, contract.value.id))
      && e.calls[|e.calls| - 1] == ModelCall(system, History(messages))
      && system.floorPercent == m.settlementFloor * 100.0
      && (contract.None? ==> system.context == Fallback)
      && (insertFault.None? ==>
            e.tables.conversations == t.conversations + [Turn(debtorId, "user", last), Turn(debtorId, "assistant", e.reply.text)])
      && (insertFault.Some? ==> e.tables == t)
  {
  }

  /** With a contract, no matches (or a failed RPC) leave the fallback in
      the prompt; matches put their joined contents there. */
  lemma RetrievedContext(t: Tables, messages: seq<ChatMessage>, debtorId: string, embed: string -> EmbedResult,
                         matchRpc: (seq<real>, real, int, string) -> Option<seq<MatchRow>>,
                         generate: (SystemPrompt, ModelInput) -> string, insertFault: Option<DbError>)
    requires Converse(t, messages, debtorId, embed, matchRpc, generate, insertFault).reply.Streamed?
    ensures var e := Converse(t, messages, debtorId, embed, matchRpc, generate, insertFault);
      var system := e.calls[|e.calls| - 1].system;
      && (|e.calls| == 3 ==>
            var c := e.calls[1];
            var matches := matchRpc(c.queryEmbedding, c.threshold, c.count, c.contractId);
            system.context == OrElse(Context(matches), Fallback)
            && (matches.None? || matches.value == [] ==> system.context == Fallback)
            && (matches.Some? && |matches.value| >= 2 ==> system.context == Join(Contents(matches.value), "\n---\n")))
  {
    var e := Converse(t, messages, debtorId, embed, matchRpc, generate, insertFault);
    if |e.calls| == 3 {
      var c := e.calls[1];
      ShownContext(matchRpc(c.queryEmbedding, c.threshold, c.count, c.contractId), Fallback);
    }
  }

  // ---------------------------------------------------------------------
  // The handler
  // ---------------------------------------------------------------------

  /** `embed` is `generateEmbedding`, `matchRpc` the
      `match_contract_embeddings` RPC (None: no data), `generate` the
      model's finished answer, `insertFault` the database's answer to the
      `onFinish` insert, which the handler does not check. */
  method Post(db: Db, messages: seq<ChatMessage>, debtorId: string, embed: string -> EmbedResult,
              matchRpc: (seq<real>, real, int, string) -> Option<seq<MatchRow>>,
              generate: (SystemPrompt, ModelInput) -> string, insertFault: Option<DbError>)
    returns (reply: Reply, calls: seq<Call>)
    modifies db
    ensures Exchange(db.Snapshot(), reply, calls) ==
      Converse(old(db.Snapshot()), messages, debtorId, embed, matchRpc, generate, insertFault)
  {
    if messages == [] {
      return Threw("Cannot read properties of undefined (reading 'content')"), [];
    }
    var lastMessage := messages[|messages| - 1].content;

    var debtor := DebtorById(db.debtors, debtorId);
    if debtor.None? {
      return Text(404, "Debtor not found"), [];
    }
    var merchant := MerchantOf(db.merchants, debtor.value);

    calls := [EmbedCall(lastMessage)];
    var queryEmbedding := embed(lastMessage);
    if queryEmbedding.EmbedFailed? {
      return Threw(queryEmbedding.message), calls;
    }
    if merchant.None? {
      // `merchant.id` on a null join
      return Threw("Cannot read properties of null (reading 'id')"), calls;
    }
    var m := merchant.value;
    var contract := LatestContract(db.contracts, m.id);

    var context := "";
    if contract.Some? {
      calls := calls + [MatchCall(queryEmbedding.v, MatchThreshold, MatchCount, contract.value.id)];
      var matches := matchRpc(queryEmbedding.v, MatchThreshold, MatchCount, contract.value.id);
      if matches.Some? && |matches.value| > 0 {
        context := Join(Contents(matches.value), Separator);
      }
    }

    var system := PromptFor(m, debtor.value, OrElse(context, Fallback));
    calls := calls + [ModelCall(system, History(messages))];
    var answer := generate(system, History(messages));

    // onFinish
    var _ := db.InsertTurns(TurnRows(debtorId, lastMessage, answer), insertFault);
    reply := Streamed(answer);
  }
}
