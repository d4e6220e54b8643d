/**
 * The chat commands (src/jellyseek/rag/commands.py): a registry of named
 * commands kept in registration order, dispatch by exact name, the help
 * text, and the guards of `/update`.
 *
 * `/update` talks to the media server and writes the snapshot file; both are
 * outside this model and arrive as an `UpdateEnv`: what the fetch returned,
 * whether saving it succeeded, and the ingestion oracles.
 */
module Commands {
  import opened Wrappers
  import opened Text
  import opened Json
  import opened Dict
  import opened Ingest
  import opened Store
  import opened Generator

  /** The three handlers the application registers. */
  datatype Action = Quit | Update | Help

  /** The `Command` dataclass; the handler is named by its action. */
  datatype Command = Command(name: string, action: Action, description: string)

  /** What `fetch_items()` returned: something falsy, a truthy non-dict, or a dict with or without `Items`. */
  datatype Fetch = Falsy | NotADict | Response(items: Option<seq<Item>>)

  /** Everything `/update` depends on besides the store. */
  datatype UpdateEnv = UpdateEnv(fetch: Fetch, saved: bool, lib: Library)

  // ------------------------------------------------------------ cmd_update

  /** The item list that gets past both guards of `cmd_update`, if any. */
  function GuardedItems(f: Fetch): (r: Option<seq<Item>>)
    ensures r.Some? <==> f.Response? && f.items.Some? && f.items.value != []
    ensures r.Some? ==> r.value == f.items.value
  {
    match f
    case Response(Some(items)) => if items == [] then None else Some(items)
    case _ => None
  }

  /** The snapshot `generate_database(force_update=True)` reads back after a successful save. */
  function UpdateRead(env: UpdateEnv): Result<Loaded, Failure>
    requires GuardedItems(env.fetch).Some?
  {
    ReadSnapshot(Shipped, env.lib, GuardedItems(env.fetch))
  }

  /** `cmd_update` returns `True`: the guards pass, the save completes and the forced rebuild loads. */
  predicate UpdateSucceeds(env: UpdateEnv) {
    GuardedItems(env.fetch).Some? && env.saved && UpdateRead(env).Ok?
  }

  /** Past both guards and the save: the forced rebuild `cmd_update` runs. */
  predicate Rebuilds(env: UpdateEnv) {
    GuardedItems(env.fetch).Some? && env.saved
  }

  /** What `cmd_update` does to the store: the forced rebuild as the shipped generator runs it. */
  function UpdateOps(present: bool, env: UpdateEnv): seq<Op> {
    if !Rebuilds(env) then []
    else AsWritten(Decide(present, true, []), UpdateRead(env)).ops
  }

  /** `cmd_update`: fetch, check, save, rebuild; any exception is `False`. */
  method CmdUpdate(store: Client, env: UpdateEnv) returns (ok: bool)
    modifies store
    ensures ok == UpdateSucceeds(env)
    ensures store.Current() == Replay(old(store.Current()), UpdateOps(old(store.present), env))
    ensures store.log == old(store.log) + UpdateOps(old(store.present), env)
  {
    var items := GuardedItems(env.fetch);
    if items.None? {
      return false;
    }
    if !env.saved {
      return false;
    }
    var out := GenerateDatabaseAsWritten(store, true, [], env.lib, items);
    ForcedRunEffect(old(store.present), UpdateRead(env), old(store.Current()));
    ok := out.Rebuilt?;
  }

  /**
   * A successful update leaves a present collection holding exactly the
   * fetched catalog. An update the guards stop changes nothing; one that
   * gets past the guards and the save but whose load raises has already
   * deleted and recreated the collection, and leaves it empty.
   */
  lemma UpdateEffect(s: State, env: UpdateEnv)
    ensures UpdateSucceeds(env) ==> Replay(s, UpdateOps(s.present, env)) == State(true, LoadedRecords(UpdateRead(env).value))
    ensures !Rebuilds(env) ==> !UpdateSucceeds(env) && UpdateOps(s.present, env) == []
    ensures Rebuilds(env) && !UpdateSucceeds(env) ==> Replay(s, UpdateOps(s.present, env)) == State(true, [])
  {
    if Rebuilds(env) {
      ForcedRunEffect(s.present, UpdateRead(env), s);
    }
  }

  /** What `cmd_update` would do to the store with the corrected rebuild, which loads before it deletes. */
  function CheckedUpdateOps(present: bool, env: UpdateEnv): seq<Op> {
    if !Rebuilds(env) then []
    else Checked(Decide(present, true, []), UpdateRead(env)).ops
  }

  /** `cmd_update` calling the corrected `generate_database`. */
  method CmdUpdateChecked(store: Client, env: UpdateEnv) returns (ok: bool)
    modifies store
    ensures ok == UpdateSucceeds(env)
    ensures store.Current() == Replay(old(store.Current()), CheckedUpdateOps(old(store.present), env))
    ensures store.log == old(store.log) + CheckedUpdateOps(old(store.present), env)
  {
    var items := GuardedItems(env.fetch);
    if items.None? {
      return false;
    }
    if !env.saved {
      return false;
    }
    var out := GenerateDatabase(store, true, [], env.lib, items);
    ok := out.Rebuilt?;
  }

  /** With the corrected rebuild, a successful update holds exactly the fetched catalog and a failed one changes nothing. */
  lemma CheckedUpdateEffect(s: State, env: UpdateEnv)
    ensures UpdateSucceeds(env) ==> CheckedUpdateOps(s.present, env) == UpdateOps(s.present, env)
    ensures UpdateSucceeds(env) ==> Replay(s, CheckedUpdateOps(s.present, env)) == State(true, LoadedRecords(UpdateRead(env).value))
    ensures !UpdateSucceeds(env) ==> CheckedUpdateOps(s.present, env) == []
  {
    if Rebuilds(env) {
      var read := UpdateRead(env);
      var plan := Decide(s.present, true, []);
      if read.Ok? {
        CheckedAgreesOnLoad(plan, read);
        RebuiltHoldsLoad(plan, read, s);
      }
    }
  }

  /** `cmd_update` returns `False` without saving whenever the fetch is unusable or holds no items. */
  lemma UpdateGuards(env: UpdateEnv)
    ensures UpdateSucceeds(env) ==> env.fetch.Response? && env.fetch.items.Some? && env.fetch.items.value != [] && env.saved
    ensures env.fetch.Falsy? || env.fetch.NotADict? || env.fetch == Response(None) || env.fetch == Response(Some([]))
            ==> !UpdateSucceeds(env) && UpdateOps(true, env) == [] && UpdateOps(false, env) == []
  {
  }

  // ------------------------------------------------------------ dispatch

  /** What a handler returns: `cmd_quit` is `True`, `cmd_help` is `False`. */
  function ActionResult(a: Action, env: UpdateEnv): bool {
    match a
    case Quit => true
    case Help => false
    case Update => UpdateSucceeds(env)
  }

  /** `handle(name)`: `None` for an unregistered name, otherwise the handler's result. */
  function Dispatch(commands: Dict<string, Command>, name: string, env: UpdateEnv): (r: Option<bool>)
    ensures r.None? <==> name !in Keys(commands)
  {
    match Get(commands, name)
    case None => None
    case Some(c) => Some(ActionResult(c.action, env))
  }

  /** What `handle(name)` does to the store: only `/update` changes it. */
  function DispatchOps(commands: Dict<string, Command>, name: string, present: bool, env: UpdateEnv): seq<Op> {
    match Get(commands, name)
    case Some(c) => if c.action.Update? then UpdateOps(present, env) else []
    case None => []
  }

  /** One `name: description` line per command, in registration order. */
  function HelpLines(commands: Dict<string, Command>): (lines: seq<string>)
    ensures |lines| == |commands|
    ensures forall i :: 0 <= i < |commands| ==> lines[i] == commands[i].1.name + ": " + commands[i].1.description
  {
    seq(|commands|, i requires 0 <= i < |commands| => commands[i].1.name + ": " + commands[i].1.description)
  }

  /** `get_help()`. */
  function HelpText(commands: Dict<string, Command>): string {
    JoinWith("\n", HelpLines(commands))
  }

  /** Names and descriptions without line breaks: every help line is one line of the text. */
  predicate SingleLine(commands: Dict<string, Command>) {
    forall i :: 0 <= i < |commands| ==> '\n' !in commands[i].1.name && '\n' !in commands[i].1.description
  }

  /** Splitting the help text at line breaks gives back one line per command, in registration order. */
  lemma HelpTextLines(commands: Dict<string, Command>)
    requires commands != [] && SingleLine(commands)
    ensures Split(HelpText(commands), '\n') == HelpLines(commands)
  {
    var lines := HelpLines(commands);
    forall i | 0 <= i < |lines|
      ensures '\n' !in lines[i]
    {
      var c := commands[i].1;
      assert lines[i] == c.name + ": " + c.description;
      assert forall j :: 0 <= j < |lines[i]| ==> lines[i][j] == (if j < |c.name| then c.name[j] else if j < |c.name| + 2 then ": "[j - |c.name|] else c.description[j - |c.name| - 2]);
    }
    SplitJoin(lines, '\n');
  }

  /** The registry is a dict whose entries are filed under their own names. */
  predicate Filed(commands: Dict<string, Command>) {
    DistinctKeys(commands) && forall i :: 0 <= i < |commands| ==> commands[i].1.name == commands[i].0
  }

  /** `commands[name] = Command(...)`: a registered name is replaced where it stands, a new one goes last. */
  lemma RegisterEffect(commands: Dict<string, Command>, c: Command)
    requires Filed(commands)
    ensures Filed(Put(commands, c.name, c))
    ensures c.name !in Keys(commands) ==> Put(commands, c.name, c) == commands + [(c.name, c)]
    ensures forall i :: 0 <= i < |commands| && commands[i].0 == c.name ==> Put(commands, c.name, c) == commands[i := (c.name, c)]
  {
    var r := Put(commands, c.name, c);
    PutDistinct(commands, c.name, c);
    PutPairs(commands, c.name, c);
    if c.name !in Keys(commands) {
      PutAppends(commands, c.name, c);
    }
    forall i | 0 <= i < |commands| && commands[i].0 == c.name
      ensures r == commands[i := (c.name, c)]
    {
      PutAt(commands, c.name, c, i);
    }
  }

  /** Registering leaves every other name's entry as it was. */
  lemma RegisterKeepsOthers(commands: Dict<string, Command>, c: Command, name: string, env: UpdateEnv)
    ensures Get(Put(commands, c.name, c), name) == if name == c.name then Some(c) else Get(commands, name)
    ensures name != c.name ==> Dispatch(Put(commands, c.name, c), name, env) == Dispatch(commands, name, env)
  {
    GetPut(commands, c.name, c, name);
  }

  // ------------------------------------------------------------ the handler object

  /** `CommandHandler`: the registry, updated in place by `register`. */
  class CommandHandler {
    var commands: Dict<string, Command>

    ghost predicate Valid()
      reads this
    {
      Filed(commands)
    }

    constructor()
      ensures commands == [] && Valid()
    {
      commands := [];
    }

    /** `register(name, handler, description)`. */
    method Register(name: string, action: Action, description: string)
      requires Valid()
      modifies this
      ensures Valid()
      ensures commands == Put(old(commands), name, Command(name, action, description))
    {
      RegisterEffect(commands, Command(name, action, description));
      commands := Put(commands, name, Command(name, action, description));
    }

    /** `handle(name, ...)`: the registry is only read; the store changes only under `/update`. */
    method Handle(name: string, store: Client, env: UpdateEnv) returns (r: Option<bool>)
      modifies store
      ensures r == Dispatch(commands, name, env)
      ensures store.Current() == Replay(old(store.Current()), DispatchOps(commands, name, old(store.present), env))
      ensures store.log == old(store.log) + DispatchOps(commands, name, old(store.present), env)
    {
      var cmd := Get(commands, name);
      if cmd.None? {
        return None;
      }
      match cmd.value.action
      case Quit =>
        r := Some(true);
      case Help =>
        r := Some(false);
      case Update =>
        var ok := CmdUpdate(store, env);
        r := Some(ok);
    }

    /** `get_help()`. */
    function GetHelp(): (h: string)
      reads this
      ensures commands != [] && SingleLine(commands) ==> Split(h, '\n') == HelpLines(commands)
      ensures commands == [] ==> h == ""
    {
      if commands != [] && SingleLine(commands) then
        HelpTextLines(commands);
        HelpText(commands)
      else
        HelpText(commands)
    }
  }

  const QuitCommand := Command("/quit", Quit, "Exit the application")
  const UpdateCommand := Command("/update", Update, "Check for new movies and update the database")
  const HelpCommand := Command("/help", Help, "Show this help message")

  /** The registry `create_command_handler` builds: `/quit`, `/update`, `/help`, in that order. */
  function DefaultCommands(): Dict<string, Command> {
    [(QuitCommand.name, QuitCommand), (UpdateCommand.name, UpdateCommand), (HelpCommand.name, HelpCommand)]
  }

  /** `create_command_handler()`. */
  method CreateCommandHandler() returns (h: CommandHandler)
    ensures fresh(h) && h.Valid()
    ensures h.commands == DefaultCommands()
  {
    h := new CommandHandler();
    h.Register(QuitCommand.name, QuitCommand.action, QuitCommand.description);
    h.Register(UpdateCommand.name, UpdateCommand.action, UpdateCommand.description);
    h.Register(HelpCommand.name, HelpCommand.action, HelpCommand.description);
    DefaultCommandsOrder();
  }

  /** Registering the three commands one after another, on an empty registry, gives exactly that registry. */
  lemma DefaultCommandsOrder()
    ensures Put(Put(Put([], QuitCommand.name, QuitCommand), UpdateCommand.name, UpdateCommand), HelpCommand.name, HelpCommand)
            == DefaultCommands()
    ensures Keys(DefaultCommands()) == ["/quit", "/update", "/help"]
  {
    var q: Dict<string, Command> := [("/quit", QuitCommand)];
    assert Put([], QuitCommand.name, QuitCommand) == q;
    assert "/update" != "/quit" by { assert "/update"[1] != "/quit"[1]; }
    assert "/help" != "/quit" by { assert "/help"[1] != "/quit"[1]; }
    assert "/help" != "/update" by { assert "/help"[1] != "/update"[1]; }
    assert Keys(q) == ["/quit"];
    PutAppends(q, UpdateCommand.name, UpdateCommand);
    var qu := q + [("/update", UpdateCommand)];
    assert Keys(qu) == ["/quit", "/update"];
    PutAppends(qu, HelpCommand.name, HelpCommand);
    var all := DefaultCommands();
    assert Keys(all) == [all[0].0, all[1].0, all[2].0];
  }

  /** On the default registry `/quit` answers `True`, `/help` `False`, `/update` its outcome, and anything else `None`. */
  lemma DefaultDispatch(name: string, env: UpdateEnv)
    ensures Dispatch(DefaultCommands(), "/quit", env) == Some(true)
    ensures Dispatch(DefaultCommands(), "/help", env) == Some(false)
    ensures Dispatch(DefaultCommands(), "/update", env) == Some(UpdateSucceeds(env))
    ensures name != "/quit" && name != "/update" && name != "/help" ==> Dispatch(DefaultCommands(), name, env) == None
  {
    DefaultGet("/quit");
    DefaultGet("/update");
    DefaultGet("/help");
    DefaultGet(name);
  }

  /** Looking a name up in the default registry. */
  lemma DefaultGet(name: string)
    ensures Get(DefaultCommands(), name) ==
      if name == "/quit" then Some(QuitCommand)
      else if name == "/update" then Some(UpdateCommand)
      else if name == "/help" then Some(HelpCommand)
      else None
  {
    DefaultCommandsOrder();
    var d := DefaultCommands();
    assert DistinctKeys(d);
    if name == "/quit" {
      GetAt(d, 0);
    } else if name == "/update" {
      GetAt(d, 1);
    } else if name == "/help" {
      GetAt(d, 2);
    } else {
      assert name !in Keys(d);
    }
  }
}
