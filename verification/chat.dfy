/**
 * The interactive assistant (src/jellyseek/rag/movie_chat.py): one query
 * turn (rewrite, retrieve, answer), command routing, the empty-collection
 * start-up and the chat loop.
 *
 * The two language-model calls are uninterpreted: `rewrite` is the model's
 * raw answer to the search-query prompt (the caller strips it, as
 * src/jellyseek/rag/llm.py:23 does) and `respond` maps the original
 * question and the context to the answer. The operator's input lines are a
 * sequence; running out of them is `input()` raising `EOFError`.
 */
module Chat {
  import opened Wrappers
  import opened Text
  import opened Dict
  import opened Store
  import opened Database
  import opened Commands

  datatype Llm = Llm(rewrite: string -> string, respond: (string, string) -> string)

  /** What a query turn prints: the "no movies" notice, or an answer with the arguments it was generated from. */
  datatype Reply = NoneFound | Answered(question: string, context: string, response: string)

  /** One query turn: the question, the search query sent to the store, and the reply. */
  datatype Turn = Turn(question: string, searched: string, reply: Reply)

  /** Retrieved documents are joined with a blank line between them. */
  const DocumentSeparator := "\n\n"

  /** `generate_search_query(q)`: the model's rewrite, stripped. */
  function SearchQuery(llm: Llm, question: string): string {
    Strip(llm.rewrite(question))
  }

  /** `handle_query(user_query, collection)`. */
  function HandleQuery(llm: Llm, search: Search, records: seq<Record>, question: string): (t: Turn)
    ensures t.question == question
    ensures t.searched == SearchQuery(llm, question)
    ensures t.reply.NoneFound? <==> QueryDatabase(search, records, t.searched).documents == []
    ensures t.reply.Answered? ==>
              && t.reply.question == question
              && t.reply.context == JoinWith(DocumentSeparator, QueryDatabase(search, records, t.searched).documents)
              && t.reply.response == llm.respond(question, t.reply.context)
  {
    var searched := SearchQuery(llm, question);
    var docs := QueryDatabase(search, records, searched).documents;
    if docs == [] then Turn(question, searched, NoneFound)
    else
      var context := JoinWith(DocumentSeparator, docs);
      Turn(question, searched, Answered(question, context, llm.respond(question, context)))
  }

  /** Retrieval sees the question only through its rewrite: questions with the same rewrite retrieve the same context. */
  lemma RetrievalUsesRewrite(llm: Llm, search: Search, records: seq<Record>, q1: string, q2: string)
    requires SearchQuery(llm, q1) == SearchQuery(llm, q2)
    ensures HandleQuery(llm, search, records, q1).reply.NoneFound? == HandleQuery(llm, search, records, q2).reply.NoneFound?
    ensures HandleQuery(llm, search, records, q1).reply.Answered? ==>
              HandleQuery(llm, search, records, q1).reply.context == HandleQuery(llm, search, records, q2).reply.context
  {
  }

  /** A single retrieved document is the whole context; two or more are joined in retrieval order. */
  lemma ContextOrder(llm: Llm, search: Search, records: seq<Record>, question: string)
    ensures var docs := QueryDatabase(search, records, SearchQuery(llm, question)).documents;
            var reply := HandleQuery(llm, search, records, question).reply;
            && (|docs| == 1 ==> reply.context == docs[0])
            && (|docs| >= 2 ==> reply.context == docs[0] + DocumentSeparator + JoinWith(DocumentSeparator, docs[1..]))
  {
  }

  /** `user_query.startswith('/')`. */
  predicate IsCommandLine(line: string) {
    |line| > 0 && line[0] == '/'
  }

  /** `handle_command`: the loop ends only on `/quit` with a truthy handler result. */
  function HandleCommand(line: string, result: Option<bool>): (quit: bool)
    ensures quit ==> line == "/quit"
  {
    result == Some(true) && line == "/quit"
  }

  /** With the application's commands, exactly `/quit` ends the loop; `/update`, `/help` and unknown commands never do. */
  lemma OnlyQuitEnds(line: string, env: UpdateEnv)
    ensures HandleCommand(line, Dispatch(DefaultCommands(), line, env)) <==> line == "/quit"
  {
    DefaultDispatch(line, env);
  }

  /** The empty-collection prompt: `answer.strip().lower() == 'y'`. */
  predicate Confirms(answer: string) {
    Lower(Strip(answer)) == "y"
  }

  /** Only `y` or `Y`, with any surrounding whitespace, confirms. */
  lemma ConfirmsExactly(answer: string)
    ensures Confirms(answer) <==> Strip(answer) == "y" || Strip(answer) == "Y"
  {
    var s := Strip(answer);
    if |s| == 1 {
      assert Lower(s) == [LowerChar(s[0])];
      assert LowerChar(s[0]) == 'y' <==> s[0] == 'y' || s[0] == 'Y';
      assert s == [s[0]];
    } else {
      assert |Lower(s)| != |"y"|;
    }
  }

  /** What `handle_empty_database` does to the store: run `/update` once confirmed. */
  function EmptyStartOps(commands: Dict<string, Command>, answer: string, present: bool, env: UpdateEnv): seq<Op> {
    if Confirms(answer) then DispatchOps(commands, "/update", present, env) else []
  }

  /** `handle_empty_database`: the caller goes on only when the operator confirms and `/update` answers `True`. */
  method HandleEmptyDatabase(h: CommandHandler, store: Client, answer: string, env: UpdateEnv) returns (proceed: bool)
    modifies store
    ensures proceed <==> Confirms(answer) && Dispatch(h.commands, "/update", env) == Some(true)
    ensures store.Current() == Replay(old(store.Current()), EmptyStartOps(h.commands, answer, old(store.present), env))
    ensures store.log == old(store.log) + EmptyStartOps(h.commands, answer, old(store.present), env)
  {
    if !Confirms(answer) {
      return false;
    }
    var r := h.Handle("/update", store, env);
    proceed := r == Some(true);
  }

  // ------------------------------------------------------------ the loop

  /** What `cmd_handler.handle(line, ...)` answers, and what it does to the store. */
  datatype CommandStep = CommandStep(result: Option<bool>, ops: seq<Op>)

  /** The command handler as the loop sees it: a command line and whether the collection exists. */
  type Handler = (string, bool) -> CommandStep

  /** The query pipeline as the loop sees it: the stored records and a question. */
  type Asker = (seq<Record>, string) -> Turn

  /** A registry's handler. */
  function Registry(commands: Dict<string, Command>, env: UpdateEnv): Handler {
    (line, present) => CommandStep(Dispatch(commands, line, env), DispatchOps(commands, line, present, env))
  }

  /** `handle_query` with the given models and store. */
  function Queries(llm: Llm, search: Search): Asker {
    (records, question) => HandleQuery(llm, search, records, question)
  }

  /** What the loop prints for one line: a query turn, or a command and its handler's result. */
  datatype Event = Asked(turn: Turn) | Commanded(line: string, result: Option<bool>)

  /** How a session ends. */
  datatype Ending = Quitted | InputEnded | Declined

  /** What a session printed, did to the store, and how it ended. */
  datatype Session = Session(events: seq<Event>, ops: seq<Op>, ending: Ending)

  /** `events` and `ops` first, then the rest of the session. */
  function Prefix(events: seq<Event>, ops: seq<Op>, rest: Session): Session {
    Session(events + rest.events, ops + rest.ops, rest.ending)
  }

  /** Each input line as the loop sees it: `input(...).strip()`. */
  function StripAll(inputs: seq<string>): (lines: seq<string>)
    ensures |lines| == |inputs|
    ensures forall i :: 0 <= i < |inputs| ==> lines[i] == Strip(inputs[i])
  {
    seq(|inputs|, i requires 0 <= i < |inputs| => Strip(inputs[i]))
  }

  lemma PrefixPrefix(events: seq<Event>, ops: seq<Op>, more: seq<Event>, moreOps: seq<Op>, rest: Session)
    ensures Prefix(events, ops, Prefix(more, moreOps, rest)) == Prefix(events + more, ops + moreOps, rest)
  {
    assert events + (more + rest.events) == (events + more) + rest.events;
    assert ops + (moreOps + rest.ops) == (ops + moreOps) + rest.ops;
  }

  /** What one stripped input line does: the event it prints, its changes to the store, and whether the loop ends. */
  datatype LineOutcome = LineOutcome(event: Event, ops: seq<Op>, quits: bool)

  /** One pass of the loop body: a line starting with `/` goes to the command handler, any other to the query pipeline. */
  function Step(handle: Handler, ask: Asker, s: State, line: string): (o: LineOutcome)
    ensures o.quits ==> line == "/quit"
    ensures !IsCommandLine(line) ==> o.ops == [] && !o.quits
  {
    if IsCommandLine(line) then
      var step := handle(line, s.present);
      LineOutcome(Commanded(line, step.result), step.ops, HandleCommand(line, step.result))
    else LineOutcome(Asked(ask(s.records, line)), [], false)
  }

  /** The `while True` loop over the stripped input lines from line `i` on, from store state `s`. */
  function Converse(handle: Handler, ask: Asker, s: State, lines: seq<string>, i: nat): Session
    decreases |lines| - i
  {
    if i >= |lines| then Session([], [], InputEnded)
    else
      var o := Step(handle, ask, s, lines[i]);
      if o.quits then Session([o.event], o.ops, Quitted)
      else Prefix([o.event], o.ops, Converse(handle, ask, Replay(s, o.ops), lines, i + 1))
  }

  /** The line an event answers. */
  function LineOf(e: Event): string {
    match e
    case Asked(turn) => turn.question
    case Commanded(line, _) => line
  }

  /** The query pipeline answers the question it is given. */
  ghost predicate AnswersItsQuestion(ask: Asker) {
    forall records, question :: ask(records, question).question == question
  }

  lemma QueriesAnswerTheirQuestion(llm: Llm, search: Search)
    ensures AnswersItsQuestion(Queries(llm, search))
  {
  }

  /**
   * Event `k` answers stripped line `i + k`; a line starting with `/`
   * goes to the command handler and every other line to the query
   * pipeline.
   */
  lemma {:induction false} ConverseRouting(handle: Handler, ask: Asker, s: State, lines: seq<string>, i: nat)
    requires AnswersItsQuestion(ask) && i <= |lines|
    ensures var session := Converse(handle, ask, s, lines, i);
            && |session.events| <= |lines| - i
            && forall k :: 0 <= k < |session.events| ==>
                 && LineOf(session.events[k]) == lines[i + k]
                 && (session.events[k].Commanded? <==> IsCommandLine(lines[i + k]))
    decreases |lines| - i
  {
    if i < |lines| {
      var o := Step(handle, ask, s, lines[i]);
      var session := Converse(handle, ask, s, lines, i);
      var rest := Converse(handle, ask, Replay(s, o.ops), lines, i + 1);
      ConverseRouting(handle, ask, Replay(s, o.ops), lines, i + 1);
      if !IsCommandLine(lines[i]) {
        assert ask(s.records, lines[i]).question == lines[i];
      }
      assert LineOf(o.event) == lines[i] && (o.event.Commanded? <==> IsCommandLine(lines[i]));
      if !o.quits {
        assert session.events == [o.event] + rest.events;
        assert forall k :: 1 <= k < |session.events| ==> session.events[k] == rest.events[k - 1];
      }
    }
  }

  /** The loop itself never declines: it ends on a quitting command or at the end of the input. */
  lemma {:induction false} ConverseNeverDeclines(handle: Handler, ask: Asker, s: State, lines: seq<string>, i: nat)
    ensures Converse(handle, ask, s, lines, i).ending != Declined
    decreases |lines| - i
  {
    if i < |lines| {
      ConverseNeverDeclines(handle, ask, Replay(s, Step(handle, ask, s, lines[i]).ops), lines, i + 1);
    }
  }

  /** The handler ends the loop on `/quit` and on nothing else. */
  ghost predicate QuitsOnQuit(handle: Handler) {
    forall line, present :: HandleCommand(line, handle(line, present).result) <==> line == "/quit"
  }

  /** The application's registry ends the loop on `/quit` and on nothing else. */
  lemma DefaultQuitsOnQuit(env: UpdateEnv)
    ensures QuitsOnQuit(Registry(DefaultCommands(), env))
  {
    forall line, present
      ensures HandleCommand(line, Registry(DefaultCommands(), env)(line, present).result) <==> line == "/quit"
    {
      OnlyQuitEnds(line, env);
    }
  }

  /**
   * The loop ends at the first stripped line from `i` on that is `/quit`,
   * and runs to the end of the input when there is none.
   */
  lemma {:induction false} ConverseExit(handle: Handler, ask: Asker, s: State, lines: seq<string>, i: nat)
    requires QuitsOnQuit(handle) && i <= |lines|
    ensures var session := Converse(handle, ask, s, lines, i);
            && |session.events| <= |lines| - i
            && (session.ending == Quitted <==> exists k :: i <= k < |lines| && lines[k] == "/quit")
            && (session.ending == Quitted ==> |session.events| >= 1 && lines[i + |session.events| - 1] == "/quit")
            && (session.ending == InputEnded ==> |session.events| == |lines| - i)
            && forall k :: i <= k < i + |session.events| - 1 ==> lines[k] != "/quit"
    decreases |lines| - i
  {
    if i < |lines| {
      var line := lines[i];
      var session := Converse(handle, ask, s, lines, i);
      var o := Step(handle, ask, s, line);
      var rest := Converse(handle, ask, Replay(s, o.ops), lines, i + 1);
      ConverseExit(handle, ask, Replay(s, o.ops), lines, i + 1);
      if line == "/quit" {
        assert IsCommandLine(line) by { assert line[0] == "/quit"[0]; }
        assert HandleCommand(line, handle(line, s.present).result);
        assert session.events == [o.event];
      } else {
        assert !o.quits;
        assert |session.events| == 1 + |rest.events|;
        assert session.ending == rest.ending;
        if exists k :: i <= k < |lines| && lines[k] == "/quit" {
          var k :| i <= k < |lines| && lines[k] == "/quit";
          assert i + 1 <= k;
        }
      }
    }
  }

  /** One pass of the loop body (the `if user_query.startswith('/')` branch and its `else`). */
  method HandleLine(h: CommandHandler, store: Client, llm: Llm, search: Search, env: UpdateEnv, line: string)
    returns (event: Event, quits: bool)
    modifies store
    ensures var o := Step(Registry(h.commands, env), Queries(llm, search), old(store.Current()), line);
            && event == o.event
            && quits == o.quits
            && store.Current() == Replay(old(store.Current()), o.ops)
            && store.log == old(store.log) + o.ops
  {
    if IsCommandLine(line) {
      var r := h.Handle(line, store, env);
      event := Commanded(line, r);
      quits := HandleCommand(line, r);
    } else {
      event := Asked(HandleQuery(llm, search, store.records, line));
      quits := false;
      assert store.log + [] == store.log;
    }
  }

  /** The loop's invariant survives a pass that does not end it. */
  lemma Advance(handle: Handler, ask: Asker, whole: Session, events: seq<Event>, ops: seq<Op>, s: State, lines: seq<string>, i: nat)
    requires i < |lines| && !Step(handle, ask, s, lines[i]).quits
    requires whole == Prefix(events, ops, Converse(handle, ask, s, lines, i))
    ensures var o := Step(handle, ask, s, lines[i]);
            whole == Prefix(events + [o.event], ops + o.ops, Converse(handle, ask, Replay(s, o.ops), lines, i + 1))
  {
    var o := Step(handle, ask, s, lines[i]);
    var rest := Converse(handle, ask, Replay(s, o.ops), lines, i + 1);
    assert events + ([o.event] + rest.events) == (events + [o.event]) + rest.events;
    assert ops + (o.ops + rest.ops) == (ops + o.ops) + rest.ops;
  }

  /** A pass that ends the loop completes the session. */
  lemma Finish(handle: Handler, ask: Asker, whole: Session, events: seq<Event>, ops: seq<Op>, s: State, lines: seq<string>, i: nat)
    requires i < |lines| && Step(handle, ask, s, lines[i]).quits
    requires whole == Prefix(events, ops, Converse(handle, ask, s, lines, i))
    ensures var o := Step(handle, ask, s, lines[i]);
            whole == Session(events + [o.event], ops + o.ops, Quitted)
  {
  }

  /** No line left: the session is what has been gathered so far. */
  lemma Done(handle: Handler, ask: Asker, whole: Session, events: seq<Event>, ops: seq<Op>, s: State, lines: seq<string>)
    requires whole == Prefix(events, ops, Converse(handle, ask, s, lines, |lines|))
    ensures whole == Session(events, ops, InputEnded)
  {
    assert events + [] == events && ops + [] == ops;
  }

  /** Nothing gathered yet. */
  lemma Start(session: Session)
    ensures session == Prefix([], [], session)
  {
    assert [] + session.events == session.events && [] + session.ops == session.ops;
  }

  /** The `while True` loop of `chat_loop` over the input lines from `first` on. */
  method RunConversation(h: CommandHandler, store: Client, llm: Llm, search: Search, env: UpdateEnv,
                         inputs: seq<string>, first: nat)
    returns (events: seq<Event>, ending: Ending)
    requires first <= |inputs|
    modifies store
    ensures var session := Converse(Registry(h.commands, env), Queries(llm, search), old(store.Current()), StripAll(inputs), first);
            && events == session.events
            && ending == session.ending
            && store.Current() == Replay(old(store.Current()), session.ops)
            && store.log == old(store.log) + session.ops
  {
    ghost var handle := Registry(h.commands, env);
    ghost var ask := Queries(llm, search);
    ghost var s0 := store.Current();
    ghost var ops: seq<Op> := [];
    var lines := StripAll(inputs);
    ghost var whole := Converse(handle, ask, s0, lines, first);
    Start(whole);
    events := [];
    var i := first;
    while i < |lines|
      invariant first <= i <= |lines|
      invariant store.Current() == Replay(s0, ops)
      invariant store.log == old(store.log) + ops
      invariant whole == Prefix(events, ops, Converse(handle, ask, store.Current(), lines, i))
      decreases |lines| - i
    {
      ghost var s := store.Current();
      ghost var o := Step(handle, ask, s, lines[i]);
      var event, quits := HandleLine(h, store, llm, search, env, lines[i]);
      ReplayAppend(s0, ops, o.ops);
      AppendAssoc(old(store.log), ops, o.ops);
      if quits {
        Finish(handle, ask, whole, events, ops, s, lines, i);
        events := events + [event];
        ops := ops + o.ops;
        return events, Quitted;
      }
      Advance(handle, ask, whole, events, ops, s, lines, i);
      events := events + [event];
      ops := ops + o.ops;
      i := i + 1;
    }
    Done(handle, ask, whole, events, ops, store.Current(), lines);
    ending := InputEnded;
  }

  // ------------------------------------------------------------ the whole session

  /** `chat_loop()` once the collection is open, from store state `start`: the empty-collection check, then the loop. */
  function FromStart(handle: Handler, ask: Asker, start: State, inputs: seq<string>): Session {
    if start.records != [] then Converse(handle, ask, start, StripAll(inputs), 0)
    else if inputs == [] then Session([], [], InputEnded)
    else if !Confirms(inputs[0]) then Session([], [], Declined)
    else
      var update := handle("/update", start.present);
      if update.result != Some(true) then Session([], update.ops, Declined)
      else Prefix([], update.ops, Converse(handle, ask, Replay(start, update.ops), StripAll(inputs), 1))
  }

  /** `chat_loop()` from store state `s`: open the collection (creating it when missing), then go on from there. */
  function ChatSession(handle: Handler, ask: Asker, s: State, inputs: seq<string>): Session {
    Prefix([], OpenOps(s), FromStart(handle, ask, Opened(s), inputs))
  }

  /** The part of `chat_loop()` after `create_command_handler()`, on an open collection. */
  method Proceed(h: CommandHandler, store: Client, llm: Llm, search: Search, env: UpdateEnv, inputs: seq<string>)
    returns (events: seq<Event>, ending: Ending)
    requires store.present
    modifies store
    ensures var session := FromStart(Registry(h.commands, env), Queries(llm, search), old(store.Current()), inputs);
            && events == session.events
            && ending == session.ending
            && store.Current() == Replay(old(store.Current()), session.ops)
            && store.log == old(store.log) + session.ops
  {
    ghost var s0 := store.Current();
    ghost var handle := Registry(h.commands, env);
    if store.Count() > 0 {
      events, ending := RunConversation(h, store, llm, search, env, inputs, 0);
      return;
    }
    if inputs == [] {
      return [], InputEnded;
    }
    ghost var update := handle("/update", true);
    var proceed := HandleEmptyDatabase(h, store, inputs[0], env);
    if !proceed {
      return [], Declined;
    }
    ghost var s1 := store.Current();
    events, ending := RunConversation(h, store, llm, search, env, inputs, 1);
    ghost var conv := Converse(handle, Queries(llm, search), s1, StripAll(inputs), 1);
    ReplayAppend(s0, update.ops, conv.ops);
    AppendAssoc(old(store.log), update.ops, conv.ops);
    assert [] + conv.events == conv.events;
  }

  /** `chat_loop()`: open the collection, register the commands, offer a rebuild when it is empty, then converse. */
  method ChatLoop(store: Client, llm: Llm, search: Search, env: UpdateEnv, inputs: seq<string>)
    returns (events: seq<Event>, ending: Ending)
    requires store.Valid()
    modifies store
    ensures var s0 := old(store.Current());
            var session := ChatSession(Registry(DefaultCommands(), env), Queries(llm, search), s0, inputs);
            && events == session.events
            && ending == session.ending
            && store.Current() == Replay(s0, session.ops)
            && store.log == old(store.log) + session.ops
  {
    ghost var s0 := store.Current();
    var created := InitializeDatabase(store);
    var h := CreateCommandHandler();
    events, ending := Proceed(h, store, llm, search, env, inputs);
    ghost var rest := FromStart(Registry(DefaultCommands(), env), Queries(llm, search), Opened(s0), inputs);
    OpenThenProceed(Registry(DefaultCommands(), env), Queries(llm, search), s0, inputs);
    ReplayAppend(s0, OpenOps(s0), rest.ops);
    AppendAssoc(old(store.log), OpenOps(s0), rest.ops);
  }

  /** A session is the collection being opened followed by the rest of `chat_loop()`. */
  lemma OpenThenProceed(handle: Handler, ask: Asker, s0: State, inputs: seq<string>)
    ensures var session := ChatSession(handle, ask, s0, inputs);
            var rest := FromStart(handle, ask, Opened(s0), inputs);
            && session.events == rest.events
            && session.ending == rest.ending
            && session.ops == OpenOps(s0) + rest.ops
            && Replay(s0, OpenOps(s0)) == Opened(s0)
  {
    assert [] + FromStart(handle, ask, Opened(s0), inputs).events == FromStart(handle, ask, Opened(s0), inputs).events;
    OpenedIsReplay(s0);
  }

  /** A failed `/update` on an empty, open collection leaves it empty and open. */
  ghost predicate FailedUpdateLeavesEmpty(handle: Handler) {
    handle("/update", true).result != Some(true) ==> Replay(State(true, []), handle("/update", true).ops) == State(true, [])
  }

  /**
   * The application's `/update` on an empty collection: stopped by a guard it
   * changes nothing, and past them a load that raises leaves the collection
   * it deleted and recreated empty.
   */
  lemma DefaultFailedUpdateLeavesEmpty(env: UpdateEnv)
    ensures FailedUpdateLeavesEmpty(Registry(DefaultCommands(), env))
  {
    DefaultDispatch("", env);
    UpdateEffect(State(true, []), env);
  }

  /**
   * A session that gives up at start-up prints no turns and leaves an empty
   * collection behind, whether the operator declined or `/update` failed.
   */
  lemma DeclinedLeavesEmpty(handle: Handler, ask: Asker, s: State, inputs: seq<string>)
    requires FailedUpdateLeavesEmpty(handle)
    requires s.present || s.records == []
    requires ChatSession(handle, ask, s, inputs).ending == Declined
    ensures ChatSession(handle, ask, s, inputs).events == []
    ensures Replay(s, ChatSession(handle, ask, s, inputs).ops) == State(true, [])
  {
    var start := Opened(s);
    var rest := FromStart(handle, ask, start, inputs);
    if start.records != [] {
      ConverseNeverDeclines(handle, ask, start, StripAll(inputs), 0);
    } else if inputs != [] && Confirms(inputs[0]) && handle("/update", true).result == Some(true) {
      var update := handle("/update", true);
      ConverseNeverDeclines(handle, ask, Replay(start, update.ops), StripAll(inputs), 1);
    }
    assert start == State(true, []);
    assert rest.events == [] && Replay(start, rest.ops) == start;
    OpenThenProceed(handle, ask, s, inputs);
    ReplayAppend(s, OpenOps(s), rest.ops);
  }

  /** The application's own session that gives up at start-up prints no turns and leaves an empty collection. */
  lemma AppDeclinedLeavesEmpty(env: UpdateEnv, llm: Llm, search: Search, s: State, inputs: seq<string>)
    requires s.present || s.records == []
    requires ChatSession(Registry(DefaultCommands(), env), Queries(llm, search), s, inputs).ending == Declined
    ensures ChatSession(Registry(DefaultCommands(), env), Queries(llm, search), s, inputs).events == []
    ensures Replay(s, ChatSession(Registry(DefaultCommands(), env), Queries(llm, search), s, inputs).ops) == State(true, [])
  {
    DefaultFailedUpdateLeavesEmpty(env);
    DeclinedLeavesEmpty(Registry(DefaultCommands(), env), Queries(llm, search), s, inputs);
  }
}
