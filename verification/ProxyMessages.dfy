/** What the proxy reads off protocol messages and puts into them, property by property. */
module ProxyMessages {
  import opened Json
  import opened BuzzContext
  import opened Proxy

  /** The value of the property reached by two names. */
  lemma AtTwo(j: Json, first: string, second: string, target: Json)
    ensures At(j, [first, second], target) <==>
      && j.Obj? && first in j.fields
      && j.fields[first].Obj? && second in j.fields[first].fields && j.fields[first].fields[second] == target
  {
    AtMore(j, first, [second], target);
    assert [first] + [second] == [first, second];
    if j.Obj? && first in j.fields {
      AtOne(j.fields[first], second, target);
    }
  }

  lemma AtThree(j: Json, first: string, second: string, third: string, target: Json)
    ensures At(j, [first, second, third], target) <==>
      j.Obj? && first in j.fields && At(j.fields[first], [second, third], target)
  {
    AtMore(j, first, [second, third], target);
    assert [first] + [second, third] == [first, second, third];
  }

  lemma AtFour(j: Json, first: string, second: string, third: string, fourth: string, target: Json)
    ensures At(j, [first, second, third, fourth], target) <==>
      j.Obj? && first in j.fields && At(j.fields[first], [second, third, fourth], target)
  {
    AtMore(j, first, [second, third, fourth], target);
    assert [first] + [second, third, fourth] == [first, second, third, fourth];
  }

  /** The message has the property. */
  predicate Has(m: Message, name: string) {
    name in m && m[name] != Undefined
  }

  /** Requests have an id and a method, responses an id and no method. */
  lemma RequestsAndResponses(m: Message)
    ensures IsRequest(m) <==> Has(m, "id") && Has(m, "method")
    ensures IsResponse(m) <==> Has(m, "id") && !Has(m, "method")
  {
  }

  lemma SessionExactly(m: Message, sessionId: string)
    ensures SessionOf(m) == Str(sessionId) <==> At(Obj(m), ["params", "sessionId"], Str(sessionId))
  {
    AtTwo(Obj(m), "params", "sessionId", Str(sessionId));
  }

  /** A prompt is a session/prompt request; a cancellation is a session/cancel that names a session. */
  lemma PromptsAndCancelsExactly(m: Message)
    ensures IsPrompt(m) <==> At(Obj(m), ["method"], Str("session/prompt")) && Has(m, "id")
    ensures IsCancel(m) <==>
      At(Obj(m), ["method"], Str("session/cancel")) && exists s :: At(Obj(m), ["params", "sessionId"], Str(s))
  {
    AtOne(Obj(m), "method", Str("session/prompt"));
    AtOne(Obj(m), "method", Str("session/cancel"));
    if SessionOf(m).Str? {
      SessionExactly(m, SessionOf(m).s);
    }
    forall s | At(Obj(m), ["params", "sessionId"], Str(s))
      ensures SessionOf(m).Str?
    {
      SessionExactly(m, s);
    }
  }

  lemma UpdateExactly(update: Json, text: string)
    ensures IsAgentTextUpdate(update) && Field(Field(update, "content"), "text") == Str(text) <==>
      && At(update, ["sessionUpdate"], Str("agent_message_chunk"))
      && At(update, ["content", "type"], Str("text"))
      && At(update, ["content", "text"], Str(text))
  {
    AtOne(update, "sessionUpdate", Str("agent_message_chunk"));
    AtTwo(update, "content", "type", Str("text"));
    AtTwo(update, "content", "text", Str(text));
  }

  /** The text a message of eve's adds to a turn: that of a text chunk in a session/update, of nothing else. */
  lemma AgentTextExactly(m: Message, text: string)
    ensures HasAgentText(m) && AgentText(m) == text <==>
      && At(Obj(m), ["method"], Str("session/update"))
      && At(Obj(m), ["params", "update", "sessionUpdate"], Str("agent_message_chunk"))
      && At(Obj(m), ["params", "update", "content", "type"], Str("text"))
      && At(Obj(m), ["params", "update", "content", "text"], Str(text))
  {
    AtOne(Obj(m), "method", Str("session/update"));
    AtThree(Obj(m), "params", "update", "sessionUpdate", Str("agent_message_chunk"));
    AtFour(Obj(m), "params", "update", "content", "type", Str("text"));
    AtFour(Obj(m), "params", "update", "content", "text", Str(text));
    if "params" in m {
      UpdateAt(m["params"], ["sessionUpdate"], Str("agent_message_chunk"));
      UpdateAt(m["params"], ["content", "type"], Str("text"));
      UpdateAt(m["params"], ["content", "text"], Str(text));
      UpdateExactly(Field(m["params"], "update"), text);
    }
  }

  lemma UpdateAt(params: Json, names: seq<string>, target: Json)
    requires names != []
    ensures At(params, ["update"] + names, target) <==> At(Field(params, "update"), names, target)
  {
    AtMore(params, "update", names, target);
  }

  /** A response completes its turn when it has no error and its result's stop reason is "end_turn". */
  lemma CompletedExactly(m: Message)
    ensures IsCompleted(m) <==> !Has(m, "error") && At(Obj(m), ["result", "stopReason"], Str("end_turn"))
  {
    AtTwo(Obj(m), "result", "stopReason", Str("end_turn"));
  }

  /** Requests answered locally: those that choose the authored model, and only when there is one. */
  lemma LocalExactly(o: Options, m: Message)
    ensures IsLocal(o, m) <==>
      && Has(m, "id") && o.modelId != ""
      && (|| (&& At(Obj(m), ["method"], Str("session/set_config_option"))
              && At(Obj(m), ["params", "configId"], Str("eve.authored_model"))
              && At(Obj(m), ["params", "value"], Str(o.modelId)))
          || (&& At(Obj(m), ["method"], Str("session/set_model"))
              && At(Obj(m), ["params", "modelId"], Str(o.modelId))))
  {
    AtOne(Obj(m), "method", Str("session/set_config_option"));
    AtOne(Obj(m), "method", Str("session/set_model"));
    AtTwo(Obj(m), "params", "configId", Str("eve.authored_model"));
    AtTwo(Obj(m), "params", "value", Str(o.modelId));
    AtTwo(Obj(m), "params", "modelId", Str(o.modelId));
  }

  /** The error reply bears the request's id, the code -32603, the detail in its message, and no result. */
  lemma ErrorReplyExactly(id: Json, detail: string)
    ensures var reply := ErrorReply(id, detail);
      && reply.Keys == {"jsonrpc", "id", "error"}
      && At(Obj(reply), ["jsonrpc"], Str("2.0")) && At(Obj(reply), ["id"], id)
      && At(Obj(reply), ["error", "code"], Num("-32603"))
      && At(Obj(reply), ["error", "message"], Str("Buzz reply publication failed: " + detail))
  {
    var reply := ErrorReply(id, detail);
    AtOne(Obj(reply), "jsonrpc", Str("2.0"));
    AtOne(Obj(reply), "id", id);
    AtTwo(Obj(reply), "error", "code", Num("-32603"));
    AtTwo(Obj(reply), "error", "message", Str("Buzz reply publication failed: " + detail));
  }

  /** The properties a value has been given: the model is current, and the only one to choose from. */
  ghost predicate OffersOnly(fields: map<string, Json>, modelId: string) {
    && At(Obj(fields), ["models", "currentModelId"], Str(modelId))
    && (exists model :: At(Obj(fields), ["models", "availableModels"], Arr([model])) && At(model, ["modelId"], Str(modelId)))
    && (exists option :: At(Obj(fields), ["configOptions"], Arr([option]))
          && At(option, ["configId"], Str("eve.authored_model"))
          && At(option, ["currentValue"], Str(modelId)))
  }

  lemma FixedModelOffered(modelId: string)
    ensures OffersOnly(FixedModelResult(modelId), modelId)
  {
    var fields := FixedModelResult(modelId);
    var model := Obj(map["modelId" := Str(modelId), "name" := Str(modelId)]);
    AtTwo(Obj(fields), "models", "currentModelId", Str(modelId));
    AtTwo(Obj(fields), "models", "availableModels", Arr([model]));
    AtOne(model, "modelId", Str(modelId));
    var option := fields["configOptions"].items[0];
    AtOne(Obj(fields), "configOptions", Arr([option]));
    AtOne(option, "configId", Str("eve.authored_model"));
    AtOne(option, "currentValue", Str(modelId));
  }

  /** A local answer bears the request's id and offers the authored model alone. */
  lemma ModelAnswerExactly(o: Options, m: Message)
    ensures var answer := ModelAnswer(o, m);
      && answer.Keys == {"jsonrpc", "id", "result"}
      && answer["id"] == Get(m, "id")
      && answer["result"].Obj? && OffersOnly(answer["result"].fields, o.modelId)
  {
    FixedModelOffered(o.modelId);
  }

  /** `after` is `before` with one property set. */
  ghost predicate SetsOnly(before: map<string, Json>, name: string, value: Json, after: map<string, Json>) {
    && name in after && after[name] == value
    && forall other :: other != name ==>
         (other in after <==> other in before) && (other in after ==> after[other] == before[other])
  }

  /** The properties of the object that the message has under the name. */
  function Under(m: Message, name: string): map<string, Json> {
    if name in m && m[name].Obj? then m[name].fields else map[]
  }

  /** The blocks of a message's prompt. */
  function PromptItems(m: Message): seq<Json> {
    var params := Under(m, "params");
    if "prompt" in params && params["prompt"].Arr? then params["prompt"].items else []
  }

  /** The text block that the connector adds to a prompt. */
  const INSTRUCTION_ITEM := Obj(map["type" := Str("text"), "text" := Str(INSTRUCTION)])

  /**
   * What eve is sent: a prompt with the connector's instruction after its own blocks; a new session rooted in the
   * adapter's directory, unless it has a target; any other message as it came. Nothing else about them changes.
   */
  lemma ForwardedExactly(o: Options, m: Message)
    ensures var sent := Forwarded(o, m);
      if IsPrompt(m) then
        && "params" in sent && sent["params"].Obj? && SetsOnly(m, "params", sent["params"], sent)
        && SetsOnly(Under(m, "params"), "prompt", Arr(PromptItems(m) + [INSTRUCTION_ITEM]), sent["params"].fields)
      else if "method" in m && m["method"] == Str("session/new") && o.target.None? then
        && "params" in sent && sent["params"].Obj? && SetsOnly(m, "params", sent["params"], sent)
        && SetsOnly(Under(m, "params"), "cwd", Str(o.cwd), sent["params"].fields)
      else sent == m
  {
    assert "session/prompt" != "session/new" by {
      assert |"session/prompt"| == 14 && |"session/new"| == 11;
    }
  }

  /**
   * What the client is sent of a response: that of a session/new without error offers the authored model as well,
   * if there is one, and keeps whatever else its result held; any other comes as it was.
   */
  lemma ExtendedExactly(o: Options, requestMethod: Json, m: Message)
    ensures var sent := Extended(o, requestMethod, m);
      if requestMethod == Str("session/new") && !Has(m, "error") && o.modelId != "" then
        && "result" in sent && sent["result"].Obj? && SetsOnly(m, "result", sent["result"], sent)
        && OffersOnly(sent["result"].fields, o.modelId)
        && forall name :: name != "models" && name != "configOptions" ==>
             (name in sent["result"].fields <==> name in Under(m, "result"))
             && (name in Under(m, "result") ==> sent["result"].fields[name] == Under(m, "result")[name])
      else sent == m
  {
    FixedModelOffered(o.modelId);
    var sent := Extended(o, requestMethod, m);
    if sent != m {
      var fixed, result := FixedModelResult(o.modelId), sent["result"].fields;
      assert result["models"] == fixed["models"] && result["configOptions"] == fixed["configOptions"];
      OffersCarryOver(fixed, result, o.modelId);
    }
  }

  lemma OffersCarryOver(before: map<string, Json>, after: map<string, Json>, modelId: string)
    requires OffersOnly(before, modelId)
    requires "models" in before && "models" in after && before["models"] == after["models"]
    requires "configOptions" in before && "configOptions" in after && before["configOptions"] == after["configOptions"]
    ensures OffersOnly(after, modelId)
  {
    AtTwo(Obj(before), "models", "currentModelId", Str(modelId));
    AtTwo(Obj(after), "models", "currentModelId", Str(modelId));
    var model :| At(Obj(before), ["models", "availableModels"], Arr([model])) && At(model, ["modelId"], Str(modelId));
    AtTwo(Obj(before), "models", "availableModels", Arr([model]));
    AtTwo(Obj(after), "models", "availableModels", Arr([model]));
    var option :| At(Obj(before), ["configOptions"], Arr([option]))
      && At(option, ["configId"], Str("eve.authored_model")) && At(option, ["currentValue"], Str(modelId));
    AtOne(Obj(before), "configOptions", Arr([option]));
    AtOne(Obj(after), "configOptions", Arr([option]));
  }
}
