/** The question-answering pipeline of one chat turn: query refinement, search,
    prompt assembly, the answer call, and the per-pet log update. */
module Rag {
  import opened Wrappers
  import opened Records
  import opened Text
  import opened Store
  import opened SessionState
  import opened ChatHistory
  import opened Remote

  /** Some call of the trace is a history summarisation. */
  predicate Summarizes(calls: seq<Call>) {
    exists i :: 0 <= i < |calls| && calls[i].Complete? && calls[i].request.Summarize?
  }

  /** Exactly one call of the trace is a search. */
  predicate OneSearch(calls: seq<Call>) {
    exists i :: 0 <= i < |calls| && calls[i].Search?
      && forall j :: 0 <= j < |calls| && calls[j].Search? ==> j == i
  }

  /** The search is the last call of the trace and no earlier call is one. */
  predicate SearchesLast(calls: seq<Call>) {
    && |calls| > 0 && calls[|calls| - 1].Search?
    && forall i :: 0 <= i < |calls| - 1 ==> !calls[i].Search?
  }

  /** Exactly one call of the trace asks for an answer, and it is the last call. */
  predicate AnswersLast(calls: seq<Call>) {
    && |calls| > 0
    && calls[|calls| - 1].Complete? && calls[|calls| - 1].request.Answer?
    && forall i :: 0 <= i < |calls| - 1 ==> !(calls[i].Complete? && calls[i].request.Answer?)
  }

  /** The query refiner's output: the question is first folded together with a
      non-empty history window, then rewritten; each completion output is
      quote-stripped before it is used. */
  function RefinedQuery(model: string, complete: Completion, history: seq<Message>, question: string): (q: string)
    ensures QuoteFree(q)
  {
    var toRewrite := if history != [] then StripQuotes(complete(model, Summarize(history, question))) else question;
    StripQuotes(complete(model, Rewrite(toRewrite)))
  }

  /** The remote calls the refiner and the search adapter make, in order. */
  function RefinementCalls(model: string, complete: Completion, history: seq<Message>,
                           question: string, petType: string): (calls: seq<Call>)
    ensures |calls| == if history != [] then 3 else 2
    ensures history != [] ==> calls[0] == Complete(model, Summarize(history, question))
    ensures history != [] ==>
              calls[1] == Complete(model, Rewrite(StripQuotes(complete(model, Summarize(history, question)))))
    ensures history == [] ==> calls[0] == Complete(model, Rewrite(question))
    ensures calls[|calls| - 1] == Search(RefinedQuery(model, complete, history, question), {petType, UndefinedType}, NumChunks)
    ensures calls[|calls| - 2].Complete? && calls[|calls| - 2].request.Rewrite?
    ensures calls[|calls| - 1].query == StripQuotes(complete(model, calls[|calls| - 2].request))
    ensures forall i :: 1 <= i < |calls| ==> !(calls[i].Complete? && calls[i].request.Summarize?)
    ensures SearchesLast(calls)
    ensures forall i :: 0 <= i < |calls| ==> !(calls[i].Complete? && calls[i].request.Answer?)
  {
    var query := RefinedQuery(model, complete, history, question);
    var search := Search(query, {petType, UndefinedType}, NumChunks);
    if history != [] then
      var summary := StripQuotes(complete(model, Summarize(history, question)));
      [Complete(model, Summarize(history, question)), Complete(model, Rewrite(summary)), search]
    else
      [Complete(model, Rewrite(question)), search]
  }

  datatype PromptOutcome = PromptOutcome(prompt: Prompt, relativePaths: set<string>, calls: seq<Call>)

  /** `create_prompt`: refines the question, searches with the refined query and the
      pet's type, and gathers the history window, clinical history, check-ins,
      search results and the question into the prompt, together with the set of
      source paths of the results. */
  function CreatePrompt(model: string, complete: Completion, db: Db, log: seq<Message>,
                        pet: PetId, petType: string, question: string): (o: PromptOutcome)
    ensures o.prompt.question == question
    ensures o.prompt.chatHistory == Window(log)
    ensures o.prompt.clinicalHistory == ClinicalFor(db.clinical, pet)
    ensures o.prompt.dailyCheckIns == CheckInsFor(db.checkIns, pet)
    ensures o.calls == RefinementCalls(model, complete, Window(log), question, petType)
    ensures Summarizes(o.calls) <==> |log| >= 2
    ensures forall p :: p in o.relativePaths <==> exists c :: c in o.prompt.context && c.relativePath == p
    ensures o.prompt.context == [] && o.relativePaths == {}
  {
    var history := Window(log);
    WindowEmptyIff(log);
    var calls := RefinementCalls(model, complete, history, question, petType);
    assert Summarizes(calls) <==> history != [] by {
      if history != [] {
        assert calls[0].Complete? && calls[0].request.Summarize?;
      }
    }
    var context := SimilarChunks(RefinedQuery(model, complete, history, question), petType);
    PromptOutcome(Prompt(history, ClinicalFor(db.clinical, pet), CheckInsFor(db.checkIns, pet), context, question),
                  set c | c in context :: c.relativePath,
                  calls)
  }

  datatype AnswerOutcome = AnswerOutcome(response: string, relativePaths: set<string>, calls: seq<Call>)

  /** `answer_question`: assembles the prompt and asks the completion service once,
      after the refinement and search calls. */
  function AnswerQuestion(model: string, complete: Completion, db: Db, log: seq<Message>,
                          pet: PetId, petType: string, question: string): (a: AnswerOutcome)
    ensures AnswersLast(a.calls) && OneSearch(a.calls)
    ensures var p := CreatePrompt(model, complete, db, log, pet, petType, question);
            && a.calls[..|a.calls| - 1] == p.calls
            && a.calls[|a.calls| - 1] == Complete(model, Answer(p.prompt))
            && a.response == complete(model, Answer(p.prompt))
    ensures Summarizes(a.calls) <==> |log| >= 2
  {
    var p := CreatePrompt(model, complete, db, log, pet, petType, question);
    var answer := Complete(model, Answer(p.prompt));
    var calls := p.calls + [answer];
    assert calls[..|calls| - 1] == p.calls;
    assert OneSearch(calls) by {
      var i := |p.calls| - 1;
      assert calls[i] == p.calls[i];
      forall j | 0 <= j < |calls| && calls[j].Search?
        ensures j == i
      {
        assert j < |p.calls| && calls[j] == p.calls[j];
      }
    }
    assert Summarizes(calls) <==> Summarizes(p.calls) by {
      if Summarizes(p.calls) {
        var i :| 0 <= i < |p.calls| && p.calls[i].Complete? && p.calls[i].request.Summarize?;
        assert calls[i] == p.calls[i];
      }
      if Summarizes(calls) {
        var i :| 0 <= i < |calls| && calls[i].Complete? && calls[i].request.Summarize?;
        assert i < |p.calls| && calls[i] == p.calls[i];
      }
    }
    AnswerOutcome(complete(model, answer.request), p.relativePaths, calls)
  }

  /** The log a pet has before a turn: its cached log, or the empty log the page
      creates for it. */
  function PriorLog(s: Session, pet: PetId): (log: seq<Message>)
    ensures s.messages[pet := log] == if pet in s.messages then s.messages else s.messages[pet := []]
  {
    if pet in s.messages then s.messages[pet] else []
  }

  /** A turn is answered when a pet is selected, its database row exists and the
      submitted question is non-empty. */
  predicate Answers(s: Session, db: Db, question: string) {
    s.currentPet.Some? && PetInfo(db.pets, s.currentPet.value).Some? && question != ""
  }

  datatype TurnOutcome = TurnOutcome(session: Session, calls: seq<Call>)

  /** The chat part of the "Current Pet" page: make sure the pet has a log, and for a
      submitted question append the raw question as a user entry, answer the
      quote-stripped question, and append the quote-stripped answer as an
      assistant entry. */
  function ChatTurn(s: Session, db: Db, complete: Completion, question: string): (t: TurnOutcome)
    ensures t.session.(messages := s.messages) == s
    ensures forall p :: Some(p) != s.currentPet ==>
              (p in t.session.messages <==> p in s.messages)
              && (p in s.messages ==> t.session.messages[p] == s.messages[p])
    ensures !Answers(s, db, question) ==> t.calls == []
    ensures s.currentPet.None? || PetInfo(db.pets, s.currentPet.value).None? ==> t.session == s
    ensures s.currentPet.Some? && PetInfo(db.pets, s.currentPet.value).Some? && question == "" ==>
              t.session.messages == s.messages[s.currentPet.value := PriorLog(s, s.currentPet.value)]
    ensures Answers(s, db, question) ==>
              s.currentPet.value in t.session.messages
              && TurnAppended(PriorLog(s, s.currentPet.value), t.session.messages[s.currentPet.value], question)
    ensures Answers(s, db, question) ==>
              AnswersLast(t.calls)
              && t.session.messages[s.currentPet.value][|PriorLog(s, s.currentPet.value)| + 1].content
              == StripQuotes(complete(s.modelName, t.calls[|t.calls| - 1].request))
  {
    match s.currentPet
    case None => TurnOutcome(s, [])
    case Some(pet) =>
      match PetInfo(db.pets, pet)
      case None => TurnOutcome(s, [])
      case Some(info) =>
        var prior := PriorLog(s, pet);
        if question == "" then TurnOutcome(s.(messages := s.messages[pet := prior]), [])
        else
          var log := prior + [Message(User, question)];
          var answer := AnswerQuestion(s.modelName, complete, db, log, pet, info.petType, StripQuotes(question));
          var reply := Message(Assistant, StripQuotes(answer.response));
          assert TurnAppended(prior, log + [reply], question);
          TurnOutcome(s.(messages := s.messages[pet := log + [reply]]), answer.calls)
  }

  /** `after` is `before` with two entries appended: the raw question as a user
      entry, then a quote-free assistant entry. */
  predicate TurnAppended(before: seq<Message>, after: seq<Message>, question: string) {
    && |after| == |before| + 2
    && after[..|before|] == before
    && after[|before|] == Message(User, question)
    && after[|before| + 1].role == Assistant
    && QuoteFree(after[|before| + 1].content)
  }

  /** The remote calls of an answered turn: summarisation happens exactly when the
      pet already had a logged message, there is one search, and the single answer
      call comes last. The answer prompt carries the quote-stripped question and the
      last (up to six) messages logged before it. */
  lemma ChatTurnCalls(s: Session, db: Db, complete: Completion, question: string)
    requires Answers(s, db, question)
    ensures var calls := ChatTurn(s, db, complete, question).calls;
            && (Summarizes(calls) <==> |PriorLog(s, s.currentPet.value)| >= 1)
            && OneSearch(calls) && AnswersLast(calls)
    ensures var prior := PriorLog(s, s.currentPet.value);
            var calls := ChatTurn(s, db, complete, question).calls;
            var prompt := calls[|calls| - 1].request.prompt;
            && prompt.question == StripQuotes(question)
            && QuoteFree(prompt.question)
            && |prompt.chatHistory| == (if |prior| < SlideWindow - 1 then |prior| else SlideWindow - 1)
            && prompt.chatHistory == prior[|prior| - |prompt.chatHistory|..]
  {
    var pet := s.currentPet.value;
    var info := PetInfo(db.pets, pet).value;
    var prior := PriorLog(s, pet);
    var log := prior + [Message(User, question)];
    var answer := AnswerQuestion(s.modelName, complete, db, log, pet, info.petType, StripQuotes(question));
    assert ChatTurn(s, db, complete, question).calls == answer.calls;
    assert |log| >= 2 <==> |prior| >= 1;
    var p := CreatePrompt(s.modelName, complete, db, log, pet, info.petType, StripQuotes(question));
    assert answer.calls[|answer.calls| - 1].request.prompt == p.prompt;
    WindowAfterAppend(prior, Message(User, question));
  }

  /** An answered turn works on the current pet's stored data: the search is
      filtered to the type stored for that pet (or "Undefined"), the answer is
      asked of the session's model, and its prompt carries that pet's clinical
      rows and check-ins. */
  lemma ChatTurnUsesPetData(s: Session, db: Db, complete: Completion, question: string)
    requires Answers(s, db, question)
    ensures var pet := s.currentPet.value;
            var calls := ChatTurn(s, db, complete, question).calls;
            && |calls| >= 2 && calls[|calls| - 1].Complete? && calls[|calls| - 2].Search?
            && calls[|calls| - 1].model == s.modelName
            && calls[|calls| - 1].request.Answer?
            && calls[|calls| - 1].request.prompt.clinicalHistory == ClinicalFor(db.clinical, pet)
            && calls[|calls| - 1].request.prompt.dailyCheckIns == CheckInsFor(db.checkIns, pet)
            && calls[|calls| - 2]
               == Search(calls[|calls| - 2].query, {PetInfo(db.pets, pet).value.petType, UndefinedType}, NumChunks)
  {
  }
}
