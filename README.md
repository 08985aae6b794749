# mc-server-interaction in Dafny

This project models the live core of `mc_server_interaction`, a Python
library that supervises Minecraft server processes. It is built from
`interaction/` and `manager/`:

- **Lifecycle.** `MinecraftServer` drives a six-valued `ServerStatus`:
  - explicit calls: `start`, `stop`, `shutdown`, `kill`, `set_status`;
  - three marker substrings in the server's output lines;
  - a once-per-tick reconciliation that forces `STOPPED` when the process has died.
- **Commands and players.** Commands are gated on "online". The player view
  merges operators, banned players and the names a query reports.
- **Process handle.** `ServerProcess` and its `Callback` lists:
  - subscribers that raise are removed during the loop that awaits them;
  - input gets newline termination;
  - liveness means "no return code yet";
  - the resource monitor is released on kill or exit;
  - the output-reading loop publishes each line.
- **`server.properties` file.** `ServerProperties` reads and writes it:
  - `key=value` lines with `#` comments;
  - values typed as boolean, integer or text;
  - kept in an insertion-ordered table and written back in the same order.
- **Data store.** `ManagerDataStore` holds the sid counter and the
  configurations by sid. It also defines the JSON document it saves and loads.
- **Server manager.** `ServerManager` keeps its registry of servers in step
  with the data store. It covers:
  - loading every stored server;
  - the directory name of a new server;
  - `create_new_server`, `delete_server`, `install_server`, `stop_all_servers` and `get_server`.
- **Version catalogue.** `AvailableMinecraftServerVersions` filters scraped
  version links, decides whether the cache is fresh enough to use, and
  resolves `"latest"`.
- **Small records.** The world-generation settings and the status and
  configuration records.

One Dafny module per source file:

| file | module | source |
|---|---|---|
| `text.dfy` | `Text` | the Python string builtins the core relies on |
| `exceptions.dfy` | `Exceptions` | `exceptions.py` and the built-in errors the core lets escape |
| `ordered_dicts.dfy` | `OrderedDicts` | Python's insertion-ordered `dict` |
| `models.dfy` | `Models` | `interaction/models.py` |
| `manager_models.dfy` | `ManagerModels` | `manager/models.py` |
| `property_handler.dfy` | `PropertyHandler` | `interaction/property_handler.py` |
| `server_process.dfy` | `ServerProcessing` | `interaction/server_process.py` |
| `server_interaction.dfy` | `ServerInteraction` | `interaction/server_interaction.py` |
| `data_store.dfy` | `DataStore` | `manager/data_store.py` |
| `versions.dfy` | `Versions` | `manager/utils.py` |
| `server_manager.dfy` | `ServerManagement` | `manager/server_manager.py` |

## How the model is built

Objects whose fields the source updates in place are Dafny classes. Their
methods carry `modifies` frames and are proved against specification
functions:

- `ServerConfig`
- `ServerProperties`
- `Callback`
- `ServerProcess`
- `MinecraftServer`
- `ManagerDataStore`
- `AvailableVersions`
- `ServerManager`

A Python `dict` is a sequence of `(key, value)` entries in first-insertion
order (`OrderedDicts.Dict`). `d[k] = v` is `Put`: an existing key keeps its
place, and a new key goes last. `pop` is `Remove`.

Each server and the data store share the same `ServerConfig` object, as they
do in Python. `ServerManagement.Shared` states this.

A raised exception becomes an error value. A method that may raise returns:

- a `Result` (a value or an `Error`), or
- an `Outcome` (`Done` or `Fail(error)`).

Everything outside the program is a parameter of the operation that reads it:

- the text of `server.properties` (`None` when the file is absent);
- whether `server.jar` exists;
- the lines a process prints before it exits, and its return code;
- the poll at which a stopping process exits;
- the player lists and the resource usage a tick reads;
- the releases the version site lists;
- the current time.

A subscriber is a `Handler`: an identity and whether awaiting it raises.
Every callback list records the arguments of each invocation. This lets the
contracts say which notifications were sent.

Python's `for` loop over a list that the loop body shrinks is modelled as it
behaves:

- `Dispatch` is the loop over the mutating list.
- `Walk` is an independent, handler-by-handler description.
- `DispatchIsWalk` proves the two agree on lists without repeated handlers.

`kill` leaves the status unchanged, as the live revision of `MinecraftServer`
does. An earlier revision of the class set `STOPPED` in `kill`; that policy
is not modelled.

## Model

| member | source | states |
|---|---|---|
| `Models.StatusValue` | mc_server_interaction/interaction/models.py:7-13 | every status member carries one of the values 0 to 5 |
| `Models.StatusFromValue` | mc_server_interaction/interaction/models.py:7-13 | `ServerStatus(v)` succeeds exactly for 0 to 5, and the member it gives carries `v` |
| `Models.StatusValues` | mc_server_interaction/interaction/models.py:7-13 | `STOPPED` is 0, `RUNNING` 1, `STARTING` 2, `STOPPING` 3, `INSTALLING` 4 and `NOT_INSTALLED` 5 |
| `Models.StatusValuesDistinct` | mc_server_interaction/interaction/models.py:7-13 | the six members carry six distinct values, and each value converts back to its member |
| `Models.NewPlayer` | mc_server_interaction/interaction/models.py:16-21 | a new player has the given name and is not online, not an operator and not banned |
| `Models.NewBannedPlayer` | mc_server_interaction/interaction/models.py:24-28 | a new banned player is a plain new player with ban time 0, no author and no reason |
| `Models.NewOPPlayer` | mc_server_interaction/interaction/models.py:31-33 | a new operator is a plain new player with operator level 4 |
| `Models.ServerConfig.constructor` | mc_server_interaction/interaction/models.py:36-43 | the configuration holds exactly the six attributes given |
| `Models.ServerConfig.WithDefaults` | mc_server_interaction/interaction/models.py:36-43 | with only the required attributes given, memory is 2048 MB and the server counts as installed |
| `Models.ServerConfig.FromRecord` | mc_server_interaction/manager/data_store.py:58 | `ServerConfig(**config)` builds a configuration whose attributes are the stored ones |
| `Models.ServerConfig.SetRam` | mc_server_interaction/interaction/models.py:45-49 | an integer is stored as is; a text is stored as `int()` reads it; a text `int()` rejects is a ValueError and the memory is unchanged |
| `Models.ServerConfig.SetName` | mc_server_interaction/interaction/models.py:51-52 | only the name changes; every other attribute keeps its value |
| `ManagerModels.DefaultSettings` | mc_server_interaction/manager/models.py:6-10 | the default settings are an empty seed, the default level type and no generated structures |
| `ManagerModels.Pairs` | mc_server_interaction/manager/models.py:12-19 | iteration yields exactly three pairs, in the order `level-seed`, `level-type`, `generate-structures`, each with the current field value |
| `ManagerModels.SettingsApplied` | mc_server_interaction/manager/server_manager.py:110-111 | assigning the pairs gives each of the three keys its setting and leaves every other key as it was |
| `OrderedDicts.Find` | mc_server_interaction/interaction/property_handler.py:41-42 | `d.get(k)` finds a value exactly when the key is present, and the value is the one stored under it |
| `OrderedDicts.Lookup` | mc_server_interaction/interaction/property_handler.py:41-42 | `d.get(k, fallback)` is the fallback for an absent key and the stored value otherwise |
| `OrderedDicts.Keys` | mc_server_interaction/manager/utils.py:101-102 | `list(d.keys())` lists every key, in insertion order |
| `OrderedDicts.Put` | mc_server_interaction/manager/data_store.py:35 | after `d[k] = v`, `k` maps to `v`, every other key maps to what it did, and a new key goes last |
| `OrderedDicts.PutDistinct` | mc_server_interaction/interaction/property_handler.py:35 | an assignment never repeats a key |
| `OrderedDicts.PutTwice` | mc_server_interaction/interaction/property_handler.py:35 | assigning a key twice is assigning it the second value |
| `OrderedDicts.PutKeepsKeys` | mc_server_interaction/interaction/property_handler.py:38-39 | re-assigning a present key keeps every key in its place |
| `OrderedDicts.ToMap` | mc_server_interaction/interaction/property_handler.py:47-48 | `to_dict()` has exactly the table's keys, each with its value |
| `OrderedDicts.Remove` | mc_server_interaction/manager/data_store.py:38-39 | `pop(k)` removes `k`, keeps every other key with its value and adds no entry |
| `OrderedDicts.PutAllConcat` | mc_server_interaction/manager/server_manager.py:110-114 | assigning two batches of pairs one after the other is assigning them as one batch |
| `OrderedDicts.RemoveDistinct` | mc_server_interaction/manager/data_store.py:38-39 | removing a key never repeats a key |
| `OrderedDicts.PutAllIntoEmpty` | mc_server_interaction/manager/data_store.py:56-58 | filling an empty dict from entries without repeated keys rebuilds those entries in order |
| `Text.ContainsIff` | mc_server_interaction/interaction/server_interaction.py:364 | `sub in s` holds exactly when `sub` occurs at some position of `s` |
| `Text.RStripNewlines` | mc_server_interaction/interaction/property_handler.py:25 | `rstrip("\n")` leaves a prefix that does not end in a newline, and it removes only newlines |
| `Text.StripSpaces` | mc_server_interaction/manager/server_manager.py:85 | `strip()` leaves no whitespace at either end |
| `Text.StripSpacesTrims` | mc_server_interaction/manager/server_manager.py:85 | `strip()` is an infix of its input, and every character it drops, at the front or the back, is whitespace |
| `Text.IntToString` | mc_server_interaction/manager/server_manager.py:82 | `str(n)` is a non-empty run of digits, with a leading minus for a negative number |
| `Text.ParseIntOfIntToString` | mc_server_interaction/interaction/property_handler.py:31 | `int(str(n)) == n` |
| `Text.ParseInt` | mc_server_interaction/interaction/property_handler.py:29-33 | definition of `int(s)`: surrounding whitespace stripped, an optional sign, then digit groups joined by single underscores; anything else is `None` (the ValueError the source catches). Its behaviour is stated by the lemmas below |
| `Text.ParseIntSigned` | mc_server_interaction/interaction/property_handler.py:29-33 | a leading `-` negates and a leading `+` is accepted |
| `Text.ParseIntUnderscores` | mc_server_interaction/interaction/property_handler.py:29-33 | single underscores between digits are accepted and surrounding whitespace is ignored |
| `Text.ParseIntSeparators` | mc_server_interaction/interaction/property_handler.py:29-33 | the separator characters 0x1c-0x1f count as whitespace |
| `Text.ParseIntRejectsUnderscores` | mc_server_interaction/interaction/property_handler.py:29-33 | doubled, leading and trailing underscores are rejected |
| `Text.ParseIntRejectsBlank` | mc_server_interaction/interaction/property_handler.py:29-33 | empty text, blank text, a lone sign and a word are rejected |
| `Text.FilterAlnum` | mc_server_interaction/manager/server_manager.py:85 | the filter keeps only letters and digits and is never longer than its input |
| `Text.FilterAlnumConcat` | mc_server_interaction/manager/server_manager.py:85 | filtering a concatenation filters each part and concatenates the results |
| `Text.FilterAlnumKeeps` | mc_server_interaction/manager/server_manager.py:85 | a text made only of letters and digits is its own filter |
| `Text.FilterAlnumChar` | mc_server_interaction/manager/server_manager.py:85 | a single character is kept exactly when it is a letter or digit, and otherwise filters to empty text |
| `Text.ReplaceChar` | mc_server_interaction/manager/server_manager.py:85 | `replace(" ", "_")` changes exactly the spaces and nothing else |
| `Text.PathJoin` | mc_server_interaction/interaction/server_interaction.py:74 | `os.path.join(a, b)` is `b` for an absolute `b`, and otherwise starts with `a` and ends with `b` |
| `Text.PathJoinExact` | mc_server_interaction/interaction/server_interaction.py:74 | `os.path.join(a, b)` is exactly `b` for an absolute `b`, `a + b` when `a` is empty or ends with `/`, and `a + "/" + b` otherwise |
| `Text.Split` | mc_server_interaction/interaction/property_handler.py:24 | `split("=")` yields at least one part, and no part contains the separator |
| `Text.Join` | mc_server_interaction/interaction/server_interaction.py:354 | definition of `sep.join(xs)`: the parts with the separator between each pair; `SplitJoin` and `JoinSplit` relate it to `Split` |
| `Text.SplitJoin` | mc_server_interaction/interaction/property_handler.py:24 | joining the parts of `split(c)` with `c` gives back the text |
| `Text.JoinSplit` | mc_server_interaction/interaction/property_handler.py:24 | splitting a join of one or more parts that do not contain `c` gives back those parts |
| `Text.SplitOnce` | mc_server_interaction/interaction/property_handler.py:24 | a text with a single separator splits into exactly the two parts around it |
| `PropertyHandler.TypeValue` | mc_server_interaction/interaction/property_handler.py:27-33 | a value is a boolean exactly when the text is `true` or `false`; an integer only when `int()` reads the text as that integer; a text only when `int()` fails; and every non-integer value is written back as the text it came from |
| `PropertyHandler.ParseLine` | mc_server_interaction/interaction/property_handler.py:21-35 | a line is skipped exactly when it starts with `#`; a failure is the ValueError of that line; a parsed line is the key, a single `=` and the value text, with the value typed after trailing newlines are stripped |
| `PropertyHandler.ParseLines` | mc_server_interaction/interaction/property_handler.py:20-35 | a failure is a ValueError; a table without repeated keys stays without repeated keys |
| `PropertyHandler.ParseFile` | mc_server_interaction/interaction/property_handler.py:16-35 | a missing file gives an empty table; a parsed table has no repeated key; a failure is a ValueError |
| `PropertyHandler.FormatValue` | mc_server_interaction/interaction/property_handler.py:53-58 | booleans, integers and `None` are written without `=` or line breaks |
| `PropertyHandler.Serialize` | mc_server_interaction/interaction/property_handler.py:50-59 | definition of the saved text: one `key=value` line per entry, in order; `SerializeAppend` and `SaveThenLoad` state its properties |
| `PropertyHandler.SerializeAppend` | mc_server_interaction/interaction/property_handler.py:50-59 | the text written for two runs of entries is the text for the first followed by the text for the second |
| `PropertyHandler.CommentLinesSkipped` | mc_server_interaction/interaction/property_handler.py:21-22 | a line starting with `#` leaves the table as it was |
| `PropertyHandler.MalformedLineFails` | mc_server_interaction/interaction/property_handler.py:24 | a non-comment line that does not split into exactly two parts at `=` ends the load with a ValueError |
| `PropertyHandler.LaterDuplicateWins` | mc_server_interaction/interaction/property_handler.py:35 | a later line for the same key overwrites the earlier value in place |
| `PropertyHandler.IntTextChars` | mc_server_interaction/interaction/property_handler.py:27-33 | the text of an integer has no `=` or line break, and it is typed back as that integer |
| `PropertyHandler.FormatValueChars` | mc_server_interaction/interaction/property_handler.py:53-58 | a value `save` can write safely is written without `=` or line breaks and is typed back as itself, with `None` coming back as empty text |
| `PropertyHandler.ParseFormatLine` | mc_server_interaction/interaction/property_handler.py:24-35 | one line `save` wrote parses back as its key and value |
| `PropertyHandler.SplitLinesOfSerialize` | mc_server_interaction/interaction/property_handler.py:20 | iterating over the saved text yields exactly the lines written, one per entry |
| `PropertyHandler.ParseFormatLines` | mc_server_interaction/interaction/property_handler.py:20-35 | parsing the written lines assigns every entry, in order |
| `PropertyHandler.SaveThenLoad` | mc_server_interaction/interaction/property_handler.py:50-59 | round trip: loading what `save` wrote gives the same entries in the same order, with `None` coming back as empty text, as long as no key or text holds `=` or a line break, no key starts with `#`, and no text reads as a boolean or an integer |
| `PropertyHandler.ReadBackLines` | mc_server_interaction/interaction/property_handler.py:19-20 | reading the saved file back in text mode yields exactly the written lines |
| `PropertyHandler.TranslateNewlinesIdentity` | mc_server_interaction/interaction/property_handler.py:19 | text-mode reading leaves a text without carriage returns unchanged |
| `PropertyHandler.ServerProperties.constructor` | mc_server_interaction/interaction/property_handler.py:10-15 | the object holds the file name, the table and the file contents it was given |
| `PropertyHandler.ServerProperties.Set` | mc_server_interaction/interaction/property_handler.py:38-39 | `set(k, v)` assigns `k` in the table and keeps every key unique |
| `PropertyHandler.ServerProperties.Get` | mc_server_interaction/interaction/property_handler.py:41-42 | `get(k, fallback)` is the fallback for an absent key and otherwise the value stored under `k` |
| `PropertyHandler.ServerProperties.ToDict` | mc_server_interaction/interaction/property_handler.py:47-48 | `to_dict()` has exactly the table's keys, and each maps to what `get` returns for it |
| `PropertyHandler.ServerProperties.Save` | mc_server_interaction/interaction/property_handler.py:50-59 | the file becomes one `key=value` line per entry, in insertion order |
| `PropertyHandler.Load` | mc_server_interaction/interaction/property_handler.py:10-36 | a missing file gives an empty table; otherwise the lines are parsed in order; the load fails exactly when parsing fails, with the parser's error; a new object holds the parsed table |
| `ServerProcessing.RemoveFirst` | mc_server_interaction/interaction/server_process.py:18 | `list.remove(h)` shortens the list by one when `h` is in it and changes nothing otherwise |
| `ServerProcessing.Dispatch` | mc_server_interaction/interaction/server_process.py:12-18 | definition of the loop over the list it mutates: the handlers called and the list left from position `i` on; `DispatchStep` and `DispatchIsWalk` state its behaviour |
| `ServerProcessing.Walk` | mc_server_interaction/interaction/server_process.py:12-18 | reference definition of the same effect handler by handler; `WalkKeeps`, `WalkSkipsNext` and `WalkWithoutFailures` state its behaviour |
| `ServerProcessing.DispatchStep` | mc_server_interaction/interaction/server_process.py:12-18 | one pass of the loop calls the handler at the loop position; a raising handler is removed, and the loop goes on one place further in the shorter list |
| `ServerProcessing.DispatchIsWalk` | mc_server_interaction/interaction/server_process.py:12-18 | on a list without repeated handlers, the loop over the mutating list has exactly the handler-by-handler effect of `Walk` |
| `ServerProcessing.WalkWithoutFailures` | mc_server_interaction/interaction/server_process.py:12-18 | when no handler raises, every handler is called once in insertion order and the list stays as it was |
| `ServerProcessing.WalkKeeps` | mc_server_interaction/interaction/server_process.py:12-18 | only called handlers are in the list; a handler stays exactly when it did not raise when called |
| `ServerProcessing.WalkNotCalledSecond` | mc_server_interaction/interaction/server_process.py:12-18 | when the first handler raises, the second is kept and is not called |
| `ServerProcessing.WalkSkipsNext` | mc_server_interaction/interaction/server_process.py:12-18 | the handler just after one that raised is kept and is not called on that invocation |
| `ServerProcessing.SettleAdd` | mc_server_interaction/interaction/server_process.py:12-18 | the handler list after `a` invocations and then `b` more is the list after `a + b` invocations |
| `ServerProcessing.Callback.constructor` | mc_server_interaction/interaction/server_process.py:9-10 | a new callback has no handlers and no invocations |
| `ServerProcessing.Callback.AddCallback` | mc_server_interaction/interaction/server_process.py:20-24 | the handler is appended, so handlers run in insertion order, and `len` grows by one |
| `ServerProcessing.Callback.Length` | mc_server_interaction/interaction/server_process.py:20-21 | `len(callback)` is the number of handlers; `AddCallback` states that it grows by one |
| `ServerProcessing.Callback.Invoke` | mc_server_interaction/interaction/server_process.py:12-18 | the handlers called and the list left are those of the loop over the mutating list, and the argument is recorded |
| `ServerProcessing.Callbacks.constructor` | mc_server_interaction/interaction/server_process.py:27-31 | three new, empty callback lists, with the stdout list distinct from the error list |
| `ServerProcessing.Terminated` | mc_server_interaction/interaction/server_process.py:74-76 | the input ends with a newline; the newline is added exactly when the input had none |
| `ServerProcessing.TerminatedIdempotent` | mc_server_interaction/interaction/server_process.py:74-76 | terminating an already terminated input changes nothing |
| `ServerProcessing.Published` | mc_server_interaction/interaction/server_process.py:54-60 | at most one line is published per read, and no published line ends with a newline |
| `ServerProcessing.PublishedOne` | mc_server_interaction/interaction/server_process.py:55-60 | a non-empty read publishes exactly itself with trailing newlines stripped, and an empty read publishes nothing |
| `ServerProcessing.PublishedAppend` | mc_server_interaction/interaction/server_process.py:54-60 | reads are published one by one, in read order |
| `ServerProcessing.PublishedSkipsEmpty` | mc_server_interaction/interaction/server_process.py:57-60 | an empty read publishes nothing |
| `ServerProcessing.ServerProcess.constructor` | mc_server_interaction/interaction/server_process.py:46-52 | a new handle has no process, no monitor, no metrics, nothing written, and three new callback lists, each without handlers or invocations |
| `ServerProcessing.ServerProcess.Start` | mc_server_interaction/interaction/server_process.py:36-44 | the process runs the command in the directory, has no return code, and a monitor is bound to it |
| `ServerProcessing.ServerProcess.Kill` | mc_server_interaction/interaction/server_process.py:66-72 | the monitor is released and the process no longer runs; a running process gets the SIGKILL return code; a finished one is left as it was |
| `ServerProcessing.ServerProcess.Exit` | mc_server_interaction/interaction/server_process.py:71-72 | a process that exits gets its return code and no longer runs |
| `ServerProcessing.ServerProcess.IsRunning` | mc_server_interaction/interaction/server_process.py:71-72 | `is_running` holds while the process has no return code; `Start`, `Kill` and `Exit` state how it changes |
| `ServerProcessing.ServerProcess.SendInput` | mc_server_interaction/interaction/server_process.py:74-78 | the newline-terminated input is written to the process |
| `ServerProcessing.ServerProcess.ReadOutput` | mc_server_interaction/interaction/server_process.py:54-64 | while the process runs, each non-empty read is published, trailing newlines stripped and in order; then the exit callback gets the return code and the rest exactly once, each list left as its invocations settle it, and the monitor is released |
| `ServerInteraction.Newest` | mc_server_interaction/interaction/server_interaction.py:64 | the newest entries number at most 128 |
| `ServerInteraction.AppendCapped` | mc_server_interaction/interaction/server_interaction.py:361 | appending to the log grows it by one until it holds 128 entries, and then keeps it at 128 |
| `ServerInteraction.AppendCappedIsNewest` | mc_server_interaction/interaction/server_interaction.py:361 | one append keeps the newest 128 entries |
| `ServerInteraction.CappedLogKeepsNewest` | mc_server_interaction/interaction/server_interaction.py:64 | however many lines arrive, the log holds exactly the newest 128, oldest first |
| `ServerInteraction.Logs` | mc_server_interaction/interaction/server_interaction.py:352-354 | definition of `logs`: the entries joined with newlines plus a final newline; `LogsAreLines` states its meaning |
| `ServerInteraction.LogsAreLines` | mc_server_interaction/interaction/server_interaction.py:352-354 | the `logs` text is every entry followed by a newline, in order |
| `ServerInteraction.GetWorld` | mc_server_interaction/interaction/server_interaction.py:326-329 | `None` exactly when no world has the name; otherwise the first world with it |
| `ServerInteraction.FirstWorldIndex` | mc_server_interaction/interaction/server_interaction.py:328 | no world before the index has the name, and the world at it does |
| `ServerInteraction.Notified` | mc_server_interaction/interaction/server_interaction.py:106-110 | definition of what a run of `set_status` calls notifies; `NotifiedSnoc` and `NotifiedChanges` state its meaning |
| `ServerInteraction.NotifiedSnoc` | mc_server_interaction/interaction/server_interaction.py:106-110 | one more `set_status` call notifies its status exactly when it differs from the current one |
| `ServerInteraction.NotifiedChanges` | mc_server_interaction/interaction/server_interaction.py:106-110 | subscribers never hear the same status twice in a row or the status the server already had, and the last status they heard is the current one |
| `ServerInteraction.UnbannedOps` | mc_server_interaction/interaction/server_interaction.py:301-309 | the filtered operators are operators whose name no banned player has, and every such operator is kept |
| `ServerInteraction.FindOp` | mc_server_interaction/interaction/server_interaction.py:313 | `next(...)` finds the first operator with the name, or `None` when none has it |
| `ServerInteraction.PlayersOf` | mc_server_interaction/interaction/server_interaction.py:296-324 | the player view as a value; `PlayersOpsNotBanned`, `PlayersOnline` and `PlayersMarksFirstOp` state its meaning, and `Players` computes it |
| `ServerInteraction.PlayersOpsNotBanned` | mc_server_interaction/interaction/server_interaction.py:301-309 | the operator list of the view holds no banned name and keeps every operator whose name is not banned |
| `ServerInteraction.PlayersOnline` | mc_server_interaction/interaction/server_interaction.py:311-317 | every queried name appears once, in query order, as an online, non-banned player, and is marked an operator exactly when the filtered operator list has that name |
| `ServerInteraction.PlayersMarksFirstOp` | mc_server_interaction/interaction/server_interaction.py:312-316 | only the first operator of each online name is marked online; other operators keep their name, level and flag |
| `ServerInteraction.Players` | mc_server_interaction/interaction/server_interaction.py:296-324 | the two loops of `players` build exactly the specified view |
| `ServerInteraction.LaunchCommand` | mc_server_interaction/interaction/server_interaction.py:166-173 | the command is exactly `java -Xmx<ram>M -Xms<ram>M -jar <jar> --nogui` |
| `ServerInteraction.LaunchCommandMemory` | mc_server_interaction/interaction/server_interaction.py:168-169 | both heap options carry the configured size, and `int()` reads it back |
| `ServerInteraction.LStripSlashes` | mc_server_interaction/interaction/server_interaction.py:336-337 | `lstrip("/")` removes every leading slash and nothing else |
| `ServerInteraction.ServerCallbacks.constructor` | mc_server_interaction/interaction/server_interaction.py:31-38 | five new, empty callback lists |
| `ServerInteraction.MinecraftServer.constructor` | mc_server_interaction/interaction/server_interaction.py:53-70 | the status starts `STOPPED` when the configuration says installed and `NOT_INSTALLED` otherwise; there is no process, no query client and no log; the status list holds the world-reload handler |
| `ServerInteraction.MinecraftServer.IsRunning` | mc_server_interaction/interaction/server_interaction.py:344-346 | `is_running`: there is a process handle and it is running |
| `ServerInteraction.MinecraftServer.IsOnline` | mc_server_interaction/interaction/server_interaction.py:348-350 | `is_online`: running, and the status is `RUNNING` |
| `ServerInteraction.MinecraftServer.SetStatus` | mc_server_interaction/interaction/server_interaction.py:106-110 | the status becomes the given one, and the subscribers are called only when it changed |
| `ServerInteraction.MinecraftServer.Start` | mc_server_interaction/interaction/server_interaction.py:153-180 | the checks come in order: `ServerRunning` if a process runs, `ServerNotInstalled` when not installed or installing, `FileNotFound` without the jar, and each failure changes nothing, the status subscribers and their list included; on success the properties are saved, the exact launch command runs, stdout goes to the status rules, and the status is `STARTING`, notified when that is a change, with the list settled by that call |
| `ServerInteraction.MinecraftServer.Stop` | mc_server_interaction/interaction/server_interaction.py:186-195 | only an online server is sent `stop` and becomes `STOPPING`, its subscribers notified once and their list settled by that call, the process otherwise untouched; otherwise nothing changes, the status subscribers and their list included |
| `ServerInteraction.MinecraftServer.SendCommand` | mc_server_interaction/interaction/server_interaction.py:334-342 | only an online server receives the command, with every leading slash removed, and nothing else of the process changes; otherwise nothing changes |
| `ServerInteraction.MinecraftServer.Kill` | mc_server_interaction/interaction/server_interaction.py:218-221 | a running process is killed and its monitor released, its input and metrics kept; the status never changes |
| `ServerInteraction.MinecraftServer.Shutdown` | mc_server_interaction/interaction/server_interaction.py:197-216 | a server that is not online is left alone, its status subscribers and their list included; an online one is told to stop and polled at most `timeout` times; it ends `STOPPING` (one notification) if it exits in time, and otherwise is killed, `STOPPED` and saved (two notifications); the subscriber list is settled by exactly those notifications |
| `ServerInteraction.MinecraftServer.OnOutput` | mc_server_interaction/interaction/server_interaction.py:360-379 | the line goes into the capped log and to the output subscribers, and then the status rules apply |
| `ServerInteraction.MinecraftServer.StatusRules` | mc_server_interaction/interaction/server_interaction.py:363-379 | the help marker makes a starting server `RUNNING`, binding the query client only when `enable-query` is truthy; the stopping marker makes any server `STOPPING`; the saved marker drops the process and the query client, makes the server `STOPPED` and saves the properties |
| `ServerInteraction.MinecraftServer.HelpRule` | mc_server_interaction/interaction/server_interaction.py:363-369 | the help marker matters only while starting; it binds the configured port when `enable-query` is truthy |
| `ServerInteraction.MinecraftServer.StoppingRule` | mc_server_interaction/interaction/server_interaction.py:370-371 | the stopping marker requests `STOPPING` whatever the status |
| `ServerInteraction.MinecraftServer.SavedRule` | mc_server_interaction/interaction/server_interaction.py:372-379 | the saved marker drops the process handle and the query client, requests `STOPPED` and saves the properties; without it nothing else changes |
| `ServerInteraction.MinecraftServer.Tick` | mc_server_interaction/interaction/server_interaction.py:390-412 | a server that should be up but has no running process is `STOPPED` and loses its handle; each category computes `None` without subscribers and calls them only when its value changed since the last call; each of the three subscriber lists is settled by exactly the calls made, and is untouched otherwise |
| `ServerInteraction.MinecraftServer.Reconcile` | mc_server_interaction/interaction/server_interaction.py:391-394 | a status outside `STOPPED`, `NOT_INSTALLED` and `INSTALLING` with no running process becomes `STOPPED`, and the process is cleared; otherwise nothing changes |
| `ServerInteraction.MinecraftServer.PublishPlayers` | mc_server_interaction/interaction/server_interaction.py:396-412 | the player view goes out, while somebody listens, only when it differs from the last one sent |
| `ServerInteraction.MinecraftServer.PublishMetrics` | mc_server_interaction/interaction/server_interaction.py:396-412 | the resource usage goes out, zero when not running, only when it differs from the last one sent |
| `ServerInteraction.Publish` | mc_server_interaction/interaction/server_interaction.py:410-412 | subscribers are called exactly when the value differs from the last one sent, and the value becomes the last one sent |
| `ServerInteraction.NewServer` | mc_server_interaction/interaction/server_interaction.py:53-78 | construction fails exactly when the properties file does not parse, with the parser's error; otherwise the new server holds the parsed table, read from `server.properties` in its directory |
| `DataStore.Built` | mc_server_interaction/manager/data_store.py:56-60 | loading builds at most one configuration per stored entry; `BuiltKeys` and `BuiltFind` state which sid gets which configuration |
| `DataStore.LastBuilt` | mc_server_interaction/manager/data_store.py:56-60 | definition of the configuration the loading loop leaves for a sid: the last entry for it that builds |
| `DataStore.LastBuiltNone` | mc_server_interaction/manager/data_store.py:56-60 | no configuration is left for a sid exactly when every entry for it fails to build |
| `DataStore.LastBuiltPicks` | mc_server_interaction/manager/data_store.py:56-60 | the configuration left comes from an entry for that sid that builds, and every later entry for the sid fails to build |
| `DataStore.BuiltKeys` | mc_server_interaction/manager/data_store.py:56-60 | the built configurations hold a sid exactly when `LastBuilt` finds a configuration for it, which by `LastBuiltNone` is exactly when some entry for it builds |
| `DataStore.BuiltFind` | mc_server_interaction/manager/data_store.py:56-60 | after the loop a sid holds the last configuration built for it, and otherwise what it held before |
| `DataStore.Stored` | mc_server_interaction/manager/data_store.py:66-68 | `save` writes every configuration's attributes under its sid, in order |
| `DataStore.SnapshotDocument` | mc_server_interaction/manager/data_store.py:62-74 | the saved document holds exactly `servers`, `latest_sid` and `server_data_dir` |
| `DataStore.Loaded` | mc_server_interaction/manager/data_store.py:41-60 | a missing file empties the registry and resets the counter; a malformed one changes nothing; a document sets the counter (0 when absent) and the data directory (kept when absent), and each sid holds the last configuration built for it, or what it held before when none builds |
| `DataStore.BuiltStored` | mc_server_interaction/manager/data_store.py:56-68 | every saved entry builds again into the configuration it came from |
| `DataStore.SaveThenLoad` | mc_server_interaction/manager/data_store.py:53-73 | loading what `save` wrote into a fresh store restores every configuration in order, the counter and the data directory |
| `DataStore.BuiltOmits` | mc_server_interaction/manager/data_store.py:56-60 | a sid none of whose entries builds gets no configuration |
| `DataStore.LoadSkipsRejected` | mc_server_interaction/manager/data_store.py:56-60 | an entry that fails to build is skipped, and its sid keeps what it had before the load |
| `DataStore.RecordsOf` | mc_server_interaction/manager/data_store.py:67 | each configuration's attributes, under its sid and in order |
| `DataStore.RecordsOfPut` | mc_server_interaction/manager/data_store.py:34-35 | assigning a configuration to a sid assigns its attributes |
| `DataStore.RecordsOfRemove` | mc_server_interaction/manager/data_store.py:38-39 | removing a sid removes its attributes |
| `DataStore.ManagerDataStore.constructor` | mc_server_interaction/manager/data_store.py:17-22 | the store is what loading the data file into an empty store with counter 0 and the default directory leaves |
| `DataStore.ManagerDataStore.IncrementSid` | mc_server_interaction/manager/data_store.py:27-29 | the counter goes up by exactly one, nothing else changes, and the store is saved |
| `DataStore.ManagerDataStore.GetLatestSid` | mc_server_interaction/manager/data_store.py:31-32 | `get_latest_sid`: the counter; `IncrementSid` states how it changes |
| `DataStore.ManagerDataStore.AddServer` | mc_server_interaction/manager/data_store.py:34-36 | the sid maps to the configuration, replacing any earlier one, other sids are untouched, and the store is saved |
| `DataStore.ManagerDataStore.RemoveServer` | mc_server_interaction/manager/data_store.py:38-39 | the sid is removed; an absent sid is a KeyError and changes nothing; the store is not saved |
| `DataStore.ManagerDataStore.LoadData` | mc_server_interaction/manager/data_store.py:41-60 | the store ends as `Loaded` describes for the file's content |
| `DataStore.ManagerDataStore.LoadEntries` | mc_server_interaction/manager/data_store.py:56-60 | each entry that builds is assigned to its sid, in order, and the others are skipped |
| `DataStore.ManagerDataStore.AssignNew` | mc_server_interaction/manager/data_store.py:58 | the sid maps to a new configuration with the stored attributes |
| `DataStore.ManagerDataStore.Save` | mc_server_interaction/manager/data_store.py:62-74 | the data file becomes the snapshot of the current state |
| `Versions.Accept` | mc_server_interaction/manager/utils.py:60-68 | definition of the link filter: beta, alpha, classic, `rd` and `inf` links, `1.0` links and exactly `/download/1.1` are dropped; `AcceptExamples` shows where it draws the line |
| `Versions.AcceptExamples` | mc_server_interaction/manager/utils.py:60-68 | the `1.1` exclusion is exact (a `1.12.2` link stays), and beta links are dropped |
| `Versions.Accepted` | mc_server_interaction/manager/utils.py:58-73 | every kept entry's page is the site address followed by an accepted link |
| `Versions.AcceptedPages` | mc_server_interaction/manager/utils.py:58-73 | each kept id's page is the site address followed by the link of a release with that id, and that link is accepted |
| `Versions.AcceptedIds` | mc_server_interaction/manager/utils.py:58-73 | an id is kept exactly when some release with that id has an accepted link |
| `Versions.CacheFresh` | mc_server_interaction/manager/utils.py:41-44 | definition of the cache test: the age rounded down to whole days is at most 7; `CacheFreshIff` states its meaning |
| `Versions.CacheFreshIff` | mc_server_interaction/manager/utils.py:41-44 | the cache is used exactly while it is less than eight days old, since the age is rounded down to whole days and compared with 7 |
| `Versions.Resolve` | mc_server_interaction/manager/utils.py:83-84 | `"latest"` becomes the first known id, or an IndexError when none is known; any other version is kept |
| `Versions.AvailableVersions.constructor` | mc_server_interaction/manager/utils.py:19-23 | a new catalogue knows no version |
| `Versions.AvailableVersions.Refresh` | mc_server_interaction/manager/utils.py:37-80 | a cache less than eight days old is taken as it is; otherwise every accepted release is assigned over the table, and the table is cached with the time |
| `Versions.AvailableVersions.DownloadPage` | mc_server_interaction/manager/utils.py:82-90 | `"latest"` with no version known is an IndexError; a known version gives its page; an unknown one is `UnsupportedVersion` |
| `Versions.AvailableVersions.LatestVersion` | mc_server_interaction/manager/utils.py:98-99 | the first version id, or an IndexError when none is known |
| `Versions.AvailableVersions.VersionList` | mc_server_interaction/manager/utils.py:101-102 | `"latest"` followed by every version id, in order |
| `Versions.AvailableVersions.LatestAgrees` | mc_server_interaction/manager/utils.py:82-102 | the latest version is the first one listed after `"latest"`, and `"latest"` downloads from its page |
| `ServerManagement.SanitizedName` | mc_server_interaction/manager/server_manager.py:85 | the sanitised name holds only letters and digits |
| `ServerManagement.SanitizedIsFiltered` | mc_server_interaction/manager/server_manager.py:85 | the `_` that spaces become is dropped again, so sanitising keeps exactly the name's letters and digits |
| `ServerManagement.SanitizeDropsSpace` | mc_server_interaction/manager/server_manager.py:85 | two words joined by a space lose the space ("My Server" becomes "MyServer") |
| `ServerManagement.DirName` | mc_server_interaction/manager/server_manager.py:83-86 | definition of the directory name: the sanitised name, `_` and the sid; `DirNameSplits` states that it splits back |
| `ServerManagement.DirNameSplits` | mc_server_interaction/manager/server_manager.py:83-86 | the directory name is the sanitised name, `_` and the sid, and it splits back into those two parts |
| `ServerManagement.SidHasNoUnderscore` | mc_server_interaction/manager/server_manager.py:82 | a sid text `str(n)` has no `_` |
| `ServerManagement.NewServerSettings` | mc_server_interaction/manager/server_manager.py:107-114 | definition of the pairs assigned to a new server: the three world-generation pairs, then `level-name` and `enable-query`; `NewServerSettingsApplied` states their effect |
| `ServerManagement.NewServerSettingsApplied` | mc_server_interaction/manager/server_manager.py:107-114 | a new server's world directory is `worlds/world`, the query is enabled, the world-generation keys hold the settings, and every other key keeps its value from the file |
| `ServerManagement.MirrorsShared` | mc_server_interaction/manager/server_manager.py:29-34 | a manager that mirrors its store knows exactly the store's sids and shares each configuration object |
| `ServerManagement.MirrorsDistinct` | mc_server_interaction/manager/server_manager.py:32-34 | mirroring a store without repeated sids gives a registry without repeated sids |
| `ServerManagement.PropertiesFile` | mc_server_interaction/interaction/server_interaction.py:74 | a server's properties file is `server.properties` in its directory, absent when no such file exists |
| `ServerManagement.LoadTables` | mc_server_interaction/manager/server_manager.py:32-34 | a successful loading gives one table per stored configuration |
| `ServerManagement.LoadTablesOk` | mc_server_interaction/manager/server_manager.py:32-34 | loading succeeds exactly when every server's file parses |
| `ServerManagement.LoadTablesValues` | mc_server_interaction/manager/server_manager.py:32-34 | a successful loading gives each server the table its own file parses to, in store order |
| `ServerManagement.LoadTablesFirstError` | mc_server_interaction/manager/server_manager.py:32-34 | a failed loading fails with the error of the first file that does not parse |
| `ServerManagement.LoadTablesFailed` | mc_server_interaction/manager/server_manager.py:32-34 | once a file fails, the whole loading fails with its error |
| `ServerManagement.LoadedValid` | mc_server_interaction/manager/server_manager.py:32-34 | freshly loaded servers are each in a consistent state |
| `ServerManagement.Configure` | mc_server_interaction/manager/server_manager.py:110-122 | the world-generation pairs, the world directory and the query switch are assigned in order; the properties are saved; the server ends `STOPPED` |
| `ServerManagement.SetAll` | mc_server_interaction/manager/server_manager.py:110-111 | `set` on each pair, in order, assigns them all |
| `ServerManagement.Install` | mc_server_interaction/manager/server_manager.py:132-160 | the server becomes `INSTALLING`; when a download is needed and the version has no download page, it fails and stays `INSTALLING`; otherwise it ends `STOPPED` and marked installed, with nothing else in its configuration changed |
| `ServerManagement.Build` | mc_server_interaction/manager/server_manager.py:99-100 | a new server over its properties file, marked `NOT_INSTALLED`; it fails exactly when the file does not parse |
| `ServerManagement.NotifiedInstallThenStop` | mc_server_interaction/manager/server_manager.py:100-122 | marking not installed and then stopped notifies what the two calls notify one after the other |
| `ServerManagement.Prepare` | mc_server_interaction/manager/server_manager.py:99-122 | the new server holds the loaded table with the new-server settings assigned, saved, and ends `STOPPED`; it fails exactly when the file does not parse |
| `ServerManagement.NotifiedFreshSetup` | mc_server_interaction/manager/server_manager.py:99-122 | a new, not-installed server that is marked `NOT_INSTALLED` and then `STOPPED` notifies its subscribers once, of `STOPPED` |
| `ServerManagement.ServerManager.constructor` | mc_server_interaction/manager/server_manager.py:29-31 | a manager over the given store and catalogue, before any server is loaded |
| `ServerManagement.ServerManager.GetServer` | mc_server_interaction/manager/server_manager.py:163-164 | `None` for an unknown sid, and otherwise the server registered under it |
| `ServerManagement.ServerManager.StopAllServers` | mc_server_interaction/manager/server_manager.py:38-42 | the servers selected for shutdown are exactly the running ones |
| `ServerManagement.ServerManager.DeleteServer` | mc_server_interaction/manager/server_manager.py:50-65 | an unknown sid fails on the missing server and a running server is refused, both changing nothing; a missing store entry is a KeyError after the registry lost the sid; otherwise the sid leaves both registries and the store is saved |
| `ServerManagement.ServerManager.InstallServer` | mc_server_interaction/manager/server_manager.py:125-161 | an unknown sid fails; otherwise a cached jar is used unless a download is forced; a failed download leaves the server `INSTALLING` and the store unsaved; success ends `STOPPED`, with the configuration the store shares marked installed and saved; the status subscribers hear `INSTALLING` and, on success, `STOPPED` as changes, their list settled by those calls, and a failure leaves the configuration as it was |
| `ServerManagement.ServerManager.Admit` | mc_server_interaction/manager/server_manager.py:97-102 | both registries gain the sid with the same configuration, and the store is saved |
| `ServerManagement.ServerManager.Enrol` | mc_server_interaction/manager/server_manager.py:101-102 | the registry gains the sid, and the store is saved |
| `ServerManagement.ServerManager.CreateNewServer` | mc_server_interaction/manager/server_manager.py:67-123 | the counter goes up by one before use and is saved; the sid is its text; the directory is the data directory joined with the sanitised name and the sid; `"latest"` resolves to the first known version; the configuration has 2048 MB and is not installed; both registries gain the sid; the properties hold the settings and are saved; the server ends `STOPPED`, its subscribers having heard only that |
| `ServerManagement.ServerManager.CreateConfigured` | mc_server_interaction/manager/server_manager.py:90-122 | the configuration has the given directory, name and version, 2048 MB and is not installed, and the store gains it whatever happens; a file that does not parse fails without changing the registry; otherwise both registries gain the sid, the properties hold the new-server settings and are saved, and the server ends `STOPPED`, its subscribers having heard only that |
| `ServerManagement.ServerManager.CreateUnder` | mc_server_interaction/manager/server_manager.py:97-122 | the store gains the configuration whatever happens; a file that does not parse fails, leaving the registry as it was; otherwise the configured server joins the registry |
| `ServerManagement.ServerManager.LoadOne` | mc_server_interaction/manager/server_manager.py:32-34 | one pass of the loading loop: the server for the next configuration joins the registry under its sid, over its own table |
| `ServerManagement.ServerManager.LoadServers` | mc_server_interaction/manager/server_manager.py:29-35 | one server per stored configuration, in store order, each sharing its configuration, holding its own table, with its status from `installed` and no process; the first file that does not parse fails the load |
| `ServerManagement.ServerManager.LoadAll` | mc_server_interaction/manager/server_manager.py:32-34 | the loading loop mirrors the store and loads each server from its own file |
| `ServerManagement.OpenManager` | mc_server_interaction/manager/server_manager.py:29-36 | a new manager succeeds exactly when every stored server's properties file parses; it is then consistent and mirrors its store |

## Left out

- Process creation, asyncio tasks, stream reads and writes, and `asyncio.sleep`.
  - Each output line, process exit, shutdown poll and reconciliation tick is a method call.
  - The endless `_update_loop` is one `Tick` per call.
- Concurrency.
  - `stop_all_servers` runs its shutdowns together with `asyncio.gather`, and the model does not run them.
  - Handlers are awaited one after another, as the source does.
- `get_resource_usage`, `system_load` and their TTL caches. These are psutil sampling, floating-point CPU percentages and wall-clock expiry. The resource usage a tick reads is a parameter.
- The query client (mcstatus) and the JSON reads of the ban, operator and whitelist files.
  - The three name lists `players` merges are parameters.
  - `whitelisted_players` is not modelled.
  - The query client is represented only by the port it is bound to.
- World handling: `load_worlds`, `set_active_world`, `create_new_world`, `world_exits` and what `_reload_worlds` does. These are filesystem heuristics.
  - The worlds are an opaque list given at construction.
  - `_reload_worlds` is only the handler the status list starts with.
- `set_property` and `get_properties` are the property table's own `Set` and the `properties` field. `name` is `config.name`.
- The files on disk are parameters:
  - the text of `server.properties`;
  - the parsed data-store document;
  - the version cache.
  - Everything else on disk is left out: JSON encoding, `makedirs`, `rmtree`, the `eula.txt` write, jar downloads and cache copies.
- Errors from writing files and from the network are left out.
- `BackupManager` is not part of this model; the manager does not build one.
- `DataVersionMapping` (manager/utils.py) is not part of this model.
- `ServerManager._servers` is a class attribute in the source, shared by every manager instance. Here each manager has its own registry.
- The data store's and the manager's `get_servers` are the `servers` fields themselves.
- `int()`, `strip()` and `str.isalnum` are modelled on ASCII text. Whitespace is the six ASCII whitespace characters and the separators 0x1c-0x1f, as Python has it. Non-ASCII whitespace (such as U+0085 and U+00A0) and non-ASCII digits and letters are left out.
- `ServerProcessing.Callback.Invoke` fixes, per handler, whether awaiting it raises. A handler that raises on some arguments and not on others is not modelled. The exact handler lists stated by `Invoke`, `MinecraftServer.SetStatus`, `MinecraftServer.OnOutput` and `ServerManagement.Install` hold for handlers that either always or never raise.
- `ServerConfig.created_at` and the cache timestamp are parameters.
  - Creation times are `real`.
  - Cache timestamps are whole microseconds.
  - The class-level default `time.time()` (evaluated once, when the class is defined) is not modelled.
- The default level type comes from `game_constants`, which is not part of this model. It is a parameter.
- A callback that raises is removed without the `print(e)`. Logging is left out everywhere.
- Property values are booleans, integers, text and `None`; there is no floating-point case. `set_property` (interaction/server_interaction.py:103-104) also accepts a float, which `save` would write with `str()`. Loading never produces one, so floats reach the table only through that call, and they are left out with floating point generally.
- `ServerManagement.ServerManager.CreateNewServer` builds the server and writes its settings before registering it.
  - The source registers the configuration first (line 97) and then builds the server (line 99).
  - Only new objects change before registration, so the final state is the same. The order of the intermediate saves is not modelled.
  - When the properties file does not parse, the configuration is still added to the store, as in the source.
- `ServerManagement.ServerManager.CreateNewServer` does not state that the manager stays consistent after a properties file fails to parse. It states only the error, the saved counter and the unchanged registry.
- `ServerManagement.ServerManager.StopAllServers` returns the servers it would shut down. It does not run their shutdowns, which the source awaits concurrently.
- `ServerManagement.Install` models a failed download only as a version without a download page. Network failures and the jar copy are left out.
- `Versions.AvailableVersions.DownloadPage` stops at the version's page. It does not scrape that page for the jar link.
- `ServerProcessing.ServerProcess.Kill` reaps the process at once with return code -9 (asyncio's code for SIGKILL).
- `ServerInteraction.MinecraftServer.Shutdown` lets the process exit only during the one-second waits between polls.
- `ServerInteraction.MinecraftServer.Start` leaves out a launch that fails to spawn.
- `ServerInteraction.MinecraftServer.Valid` does not include the property table's own invariant. Each operation that needs it requires `ServerProperties.Valid` separately.
