# TinyMUD in Dafny

TinyMUD keeps its world in one array of records, `db[]`, threaded by integer links, and serves it to
clients through small queues. This project models the parts that have to stay consistent and proves that
they do. Code that changes things step by step is modelled by classes with the fields of the C structs and by
methods that reassign them, loops with invariants, pointers as references or indices. The array `db[]`, which
grows, is a field of type `seq` whose entries the methods replace one field at a time; the bucket table of the
index and the list of @top are arrays. Each such method is proved against a function on values, and what the
program relies on is proved about those functions.

The build modelled is the one of `src/Makefile:67-69`: PLAYER_LIST, ROBOT_MODE, RECYCLE, TIMESTAMPS,
GOD_PRIV, GENDER and NOFAKES, without RESTRICTED_BUILDING.

- **The object graph** (`Objects`, `Lists`, `Graphs`, `Threads`, `Databases`, `Commands`, `Powers`, `Play`,
  `Effects`, `Outcomes`, `Changes`, `Runs`, `Minimal`). `Graphs` reads the intrusive `contents` and `exits`
  chains as sequences and states the world invariant `Sound`; `Threads` says when the `next` fields of an array
  store such a graph; `Databases` holds the splicing procedures of `utils.c` and `move.c`; `Commands` and
  `Powers` hold the commands on the graph, `Play` holds them on the array. `Effects`, `Outcomes` and `Changes`
  say what each of them achieves in every case, in fields and chains and without the functions that do it.
  `Runs` covers any sequence of them, from `minimal.db` on, whose text `Minimal` reads.
- **The lock language** (`Locks`, `LockText`, `LockParser`). The printer leaves out parentheses that the
  right-recursive parser re-associates, so what comes back is the right-associated normal form.
- **The dump** (`Numbers`, `Dump`, `DumpFiles`, `Settling`, `Restarts`). Texts are written with what follows them
  as a parameter (`Line(s, k)` is the line s followed by k), which makes reading back a matter of one step after
  another. `Settling` says exactly which worlds survive being dumped and read, `Restarts` starts the server from
  a dump.
- **Connections and scheduling** (`Streams`, `TextQueues`, `InputLines`, `Connections`, `Clocks`,
  `Schedules`, `Throttles`, `Backlogs`, `Servers`). Output with flushing, input by lines, the token bucket and
  the round robin, and both together: what any connection gets of the server over any window of time, at most
  in `Throttles`, at least in `Backlogs`.
- **Names, index and matching** (`Names`, `Directories`, `PlayerLists`, `Registries`, `Records`, `Aliases`,
  `Matching`, `Rankings`). The hash index against the linear scan, what the commands store in the records
  of players, what a typed name refers to, and @top.
- **All of the world** (`Worlds`, `Witnesses`). One invariant of graph and index that every command on places,
  owners, locks, flags, names and passwords keeps, with players looked up in the index; and how to come from
  `minimal.db` to the failures below.

Five things the code does are not what one would wish, and are stated as they are, each with the exact
condition under which it goes wrong:

- `do_unlink` on a carried exit breaks the chains (`Commands.UnlinkSoundIff`). A wizard can reach one by
  number.
- `do_unbobble` on a thing that somebody carries makes a player who stands in a player
  (`Powers.UntoadSoundIff`).
- `do_name` does not check the new name of a player who has no password, as every untoaded player starts out
  and as `do_newpassword` can make any. A taken name is then shared (`Directories.RenamedSoundIff`), and the two
  lookups disagree exactly when a player with a lower number has it (`Directories.RenamedAgreesIff`).
- Names printed in locks, such as `Limbo(#0R)`, end in a parenthesis and cannot be read back
  (`LockText.NumberedNameFails`, `LockText.NameReadIff`); the theorems about printed locks are about names that
  can.
- A string of 511 characters, which `db_read` accepts, is cut apart from its newline when it is read again, and
  all that follows is read one line late. The world survives exactly if that makes no difference
  (`Settling.DumpRoundTripIff`); where objects have owners, if only passwords are so long and the time
  stamps behind them are all zero (`Settling.OwnedSettledIff`).

The module `Runs` excludes the first two from its runs, `Directories` the third and `Worlds` all three, by those
conditions; nothing else is excluded that the matcher can return. `Witnesses` shows that each of the three can
be reached from `minimal.db`, and an accepted dump that does not survive.

Strings are sequences of characters without NUL, and a null string pointer is the empty string, as
`alloc_string` has it. Random numbers, the clock, the counts that `write` returns and the chunks that
`read` returns are arbitrary. `dafny verify dfyconfig.toml` checks the whole project.

## Model

| member | source | states |
|---|---|---|
| `Graphs.PulledIndexed` | src/utils.c:4-20 | Taking an object off its chain leaves every other object on exactly one place, and the object on none. |
| `Graphs.MovedIndexed` | src/move.c:10-32 | moveto keeps the index: each object is on the one chain its entry names, once. |
| `Graphs.AllSent` | src/move.c:34-57 | The blanked, half-sent state with everything sent, finally reversed, is the functional description of send_contents: stayers in their old order, movers at the front of their target in reverse order. |
| `Graphs.PartlySentStep` | src/move.c:46-52 | One turn of the loop of send_contents advances the midway description by one object, although all locations were blanked first. |
| `Graphs.BoundOrder` | src/move.c:34-57 | Whatever send_contents keeps or sends to one target comes from the old list in its old order. |
| `Graphs.SentMembers` | src/move.c:34-57 | Afterwards each object of the container is where the code sends it, said in its fields: no thing stays, a STICKY one is at its home, any other at the destination; every other object is where it was: nothing lost or duplicated. |
| `Graphs.SentIndexed` | src/move.c:34-57 | All chains stay free of repetition and disjoint through send_contents. |
| `Graphs.MovedSound` | src/move.c:10-32 | moveto to a room, a player (things only) or HOME keeps the world invariant. |
| `Graphs.SendSound` | src/move.c:34-57 | send_contents of any container to a room or HOME keeps the world invariant, STICKY things included. |
| `Graphs.DropSound` | src/move.c:59-75 | maybe_dropto keeps the invariant. |
| `Graphs.EnterSound` | src/move.c:77-136 | enter_room keeps the invariant, including the STICKY dropto of the room left behind. |
| `Graphs.HomeSound` | src/move.c:138-153 | send_home keeps the invariant for players, with their possessions, and for things. |
| `Graphs.DroptoSweeps` | src/move.c:110-118 | When the last player has left a room with a STICKY dropto, every thing still there is one that goes to that room by its fields: STICKY, or sent home, and at home there. |
| `Graphs.SoundMeans` | src/db.h:102-110 | The invariant in terms of fields: contents chains agree with location, everything but rooms is on exactly one chain once, homes and droptos are rooms (or HOME, NOTHING), players stand in rooms, owners are players, players own themselves. |
| `Threads.LinkedUnique` | src/db.h:161-164 | A head and next fields determine the list they thread, so it is finite and NOTHING-terminated. |
| `Threads.SkipLinked` | src/utils.c:4-20 | Moving one link past an element threads exactly the list without that element. |
| `Threads.ReversedStep` | src/utils.c:32-43 | One turn of reverse moves the front element of the old list to the front of the new one. |
| `Threads.BlastStores` | src/move.c:37-45 | After the contents head and all locations are blanked, the array stores the midway graph, and the old list still dangles from the saved head. |
| `Databases.Database.RemoveFirst` | src/utils.c:4-20 | In place, the list loses exactly the first occurrence of the object; only next fields of its members change. |
| `Databases.Database.Member` | src/utils.c:22-30 | The walk finds the object exactly when it is on the list. |
| `Databases.Database.Reverse` | src/utils.c:32-43 | In place, the list becomes its reversal. |
| `Databases.Database.Push` | src/db.h:163-164 | PUSH puts an object that is on no chain at the front of the chain. |
| `Databases.Database.NewObject` | src/db.c:99-133 | A new object has the next number, empty chains, and is on no chain. |
| `Databases.Database.MoveTo` | src/move.c:10-32 | The array after moveto stores the graph with the object pulled from its location and pushed on the target (its home for HOME). |
| `Databases.Database.SendContents` | src/move.c:34-57 | The three loops of send_contents together meet the functional description, for every container and destination. |
| `Databases.Database.MaybeDropto` | src/move.c:59-75 | Nothing happens when the dropto is the room itself or a player is there, else the contents are sent on. |
| `Databases.Database.EnterRoom` | src/move.c:77-136 | The array after enter_room stores the graph with the player moved and the dropto of the old room looked up afterwards. |
| `Databases.Database.SendHome` | src/move.c:138-153 | Possessions go home first, then the player; a thing just goes home. |
| `Effects.MovedMeans` | src/move.c:10-32 | moveto puts the object in front of the target's contents; every chain keeps all other objects in order, every other object keeps its fields. |
| `Effects.SendSweeps` | src/move.c:34-57 | For any container and destination, in fields and chains: each thing is at its home if STICKY or sent home, else at the destination; what is no thing stays; stayers keep their order, arrivals lie in front of what was there, in reverse order; nothing else changes. |
| `Effects.DropMeans` | src/move.c:59-75 | maybe_dropto does nothing exactly if the dropto is the room itself or a player is there, and else sends the contents on in just that way. |
| `Effects.EnterMeans` | src/move.c:77-136 | enter_room does nothing for a player who is there already; else the player comes first in the new room, and exactly if a room with a STICKY dropto is then without players, its contents are sent there. |
| `Effects.EnterPlaces` | src/move.c:77-136 | The same for each thing by its fields: where it lies after somebody has gone from one room to another. |
| `Effects.HomeMeans` | src/move.c:138-153 | send_home: a thing comes first at its home; a player's contents are sent home and the player enters the home; rooms and exits stay. |
| `Effects.HomePlaces` | src/move.c:138-153 | Each thing by its fields: carried, it is at its home; lying in the room left, where the STICKY dropto sends it; else where it was. |
| `Effects.GetThenDrop` | src/move.c:212-348 | Dropping a thing undoes getting it: all fields and places are restored and only its position in the room's list may differ. |
| `Effects.HomeStrips` | src/move.c:138-153 | Going home puts a player at home without a single thing carried. |
| `Outcomes.CouldDoitIff` | src/predicates.c:38-59 | Who may use an object, as a condition on types, places, flags, owners and the lock. |
| `Outcomes.OneKeyIff` | src/boolexp.c:22-25 | A lock with one key passes a player exactly if that object is the player or its location is the player; no lock passes everybody. |
| `Outcomes.GoOutcome` | src/move.c:166-210 | A player enters the room, or the home, an exit leads to exactly if the player could use it; otherwise nothing changes. |
| `Outcomes.GoHomeOutcome` | src/move.c:170-184 | Going home: the player is at home, and each thing where its fields say. |
| `Outcomes.GetOutcome` | src/move.c:212-269 | Exactly when a thing or an unlinked exit is taken; then it is first in the player's hands and nothing else has changed, otherwise nothing has. |
| `Outcomes.DropOutcome` | src/move.c:271-348 | For every guard, in fields: TEMPLE or STICKY send the thing home, an immediate dropto takes it, home for HOME, DARK keeps it carried unless the room may be linked to, else it lies in the room, first; an exit is unlinked and heads the room's exits if the player controls the room; nothing else changes. |
| `Changes.OpenOutcome` | src/create.c:42-104 | One new exit, at the front of the room's exits, linked only to a room or HOME that may be linked to; or nothing. |
| `Changes.LinkOutcome` | src/create.c:106-207 | Exactly which field of which object linking sets, for exits, rooms, things and players, and when it sets none. |
| `Changes.DigOutcome` | src/create.c:209-239 | One new room without contents, exits or dropto; or nothing. |
| `Changes.CreateOutcome` | src/create.c:241-297 | One new thing, first in its maker's hands, at home here for those who control the room and with its maker otherwise. |
| `Changes.CreatePlayerOutcome` | src/player.c:39-65 | One new player, first in room 0, at home there and its own owner. |
| `Changes.UnlinkOutcome` | src/set.c:207-243 | The location of a controlled exit or room becomes NOTHING, and nothing else changes. |
| `Changes.ChownOutcome` | src/set.c:245-272 | Exactly who may give what to whom: wizards anything but players, others UNWANTED things they could use to themselves. |
| `Changes.RecycleOutcome` | src/set.c:464-524 | A recycled object belongs to the recipient, is unlocked and UNWANTED; a thing has the recipient's home as its home and is first in there; nothing else changes. |
| `Changes.SetOutcome` | src/set.c:164-205 | Key and flags of a controlled object are the new ones, and nothing else changes. |
| `Changes.TeleportOutcome` | src/wiz.c:14-98 | Exactly who may teleport what; a player enters the room, a thing goes to the player, to the room, or to its immediate dropto, home for HOME. |
| `Changes.MassTeleportOutcome` | src/wiz.c:100-144 | Everybody but the caller is in the room; every other place and field is as before. |
| `Changes.ToadOutcome` | src/wiz.c:229-329 | Exactly who becomes a toad of whose; all it owned is the recipient's, UNWANTED if that is the recycler; nothing moves. |
| `Changes.UntoadOutcome` | src/wiz.c:331-400 | A thing becomes a player that owns itself, where it lies, and nothing else changes. |
| `Changes.KillOutcome` | src/rob.c:54-127 | Exactly when the victim goes home, and where each thing is then; otherwise nothing changes. |
| `Records.CreateRecord` | src/player.c:39-65 | A new record exactly if the name is acceptable, at most 16 visible characters and not a respelling of another player's, and the password visible. |
| `Records.RenameRecord` | src/set.c:56-89 | Exactly when a player's name and password become those given: a stored password must match, and the name be new or the old one respelt. |
| `Records.NameRecord` | src/set.c:31-102 | The first word is a player's new name and what stands behind the blanks the password; for anything else all of it is the name. |
| `Records.PasswordRecord` | src/player.c:67-77 | A password changes exactly if there is one, the old one is given and the new one is visible. |
| `Records.NewPasswordRecord` | src/wiz.c:402-438 | A wizard changes the password of the player of that name, however spelt, and GOD alone that of GOD. |
| `Records.ToadRecord` | src/wiz.c:296-327 | The record of a toad: a thing named "a slimy toad named" and so on, no password, one penny. |
| `Records.UntoadRecord` | src/wiz.c:366-398 | A thing given a new name acceptable for players becomes a player with 50 pennies. |
| `Commands.Went` | src/move.c:166-210 | Going through an exit, passed or barred by its lock, keeps the invariant. |
| `Commands.WentHome` | src/move.c:170-184 | Going home keeps the invariant. |
| `Commands.Got` | src/move.c:212-269 | Getting things and unlinked exits keeps the invariant. |
| `Commands.Dropped` | src/move.c:271-348 | Dropping, with TEMPLE, STICKY, dropto and DARK rules, keeps the invariant. |
| `Commands.Opened` | src/create.c:42-104 | A new exit, linked or not, keeps the invariant. |
| `Commands.LinkSet` | src/create.c:106-207 | Linking exits, homes and droptos keeps the invariant. |
| `Commands.Dug` | src/create.c:209-239 | A new room keeps the invariant. |
| `Commands.Created` | src/create.c:241-297 | A new thing in its maker's hands, with a home that is a room, keeps the invariant. |
| `Commands.PlayerCreated` | src/player.c:39-65 | A new player in the start room keeps the invariant. |
| `Commands.UnlinkSoundIff` | src/set.c:207-243 | do_unlink keeps the invariant if and only if it is not applied to a controlled exit that somebody carries. |
| `Commands.OwnerChanged` | src/set.c:245-272 | Changing an owner keeps owners players and players their own. |
| `Commands.Recycled` | src/set.c:464-524 | Recycling keeps the invariant; a thing moves to the recipient's home, which is a room. |
| `Commands.FlagsSet` | src/set.c:164-205 | Setting keys and flags above the type bits of a controlled object keeps the invariant. |
| `Powers.Teleported` | src/wiz.c:14-98 | Teleporting players and things keeps the invariant, droptos included. |
| `Powers.MassTeleported` | src/wiz.c:100-144 | Moving every other player into one room keeps the invariant. |
| `Powers.Toaded` | src/wiz.c:229-329 | Toading keeps the invariant. |
| `Powers.ToadSound` | src/wiz.c:297-312 | After the sweep nothing at all is owned by the toad, and every owner is still a player. |
| `Powers.UntoadSoundIff` | src/wiz.c:331-400 | do_unbobble keeps the invariant if and only if the thing it turns into a player lies in a room. |
| `Powers.Killed` | src/rob.c:54-127 | A successful killing, which sends the victim and all possessions home, keeps the invariant. |
| `Play.EvalBoolexp` | src/boolexp.c:10-31 | Evaluation by walking the player's contents terminates and equals the meaning of the lock over the keys held; a lock with one key lets pass exactly that object and whoever is its location. |
| `Play.HoldsByLocation` | src/boolexp.c:22-25 | The keys found by that walk are the player and exactly the objects whose location is the player. |
| `Locks.MoreKeysOpen` | src/boolexp.c:10-31 | A lock without negation that opens with some keys opens with more. |
| `Locks.AllOrNone` | src/boolexp.c:10-31 | A lock without negation opens with all its keys and stays shut with none of them. |
| `Locks.OnlyConstantsCount` | src/boolexp.c:10-31 | Only the objects a lock names matter to it. |
| `Play.CouldDo` | src/predicates.c:38-59 | could_doit: the robot rules, the unlinked-object rule and the lock. |
| `Play.DoMove` | src/move.c:166-210 | On the array, do_move does to the graph what Commands.Went says. |
| `Play.DoHome` | src/move.c:170-184 | On the array, going home does what Commands.WentHome says. |
| `Play.DoGet` | src/move.c:212-269 | On the array, do_get does what Commands.Got says, splicing an exit from the room into the player's contents. |
| `Play.DoDrop` | src/move.c:271-348 | On the array, do_drop does what Commands.Dropped says. |
| `Play.DoOpen` | src/create.c:42-104 | On the array, do_open does what Commands.Opened says. |
| `Play.DoLink` | src/create.c:106-207 | On the array, do_link does what Commands.LinkSet says. |
| `Play.DoDig` | src/create.c:209-239 | On the array, do_dig does what Commands.Dug says. |
| `Play.DoCreate` | src/create.c:241-297 | On the array, do_create does what Commands.Created says. |
| `Play.CreatePlayer` | src/player.c:39-65 | On the array, create_player does what Commands.PlayerCreated says and returns the new number. |
| `Play.DoUnlink` | src/set.c:207-243 | On the array, do_unlink clears the destination or dropto of a controlled exit or room and nothing else. |
| `Play.DoChown` | src/set.c:245-272 | On the array, do_chown does what Commands.OwnerChanged says. |
| `Play.DoSet` | src/set.c:164-205 | On the array, setting key and flags does what Commands.FlagsSet says. |
| `Play.DoRecycle` | src/set.c:464-524 | On the array, do_recycle does what Commands.Recycled says. |
| `Play.DoTeleport` | src/wiz.c:14-98 | On the array, do_teleport does what Powers.Teleported says. |
| `Play.DoMassTeleport` | src/wiz.c:100-144 | On the array, the loop over all players does what Powers.MassTeleported says. |
| `Play.DoBobble` | src/wiz.c:229-329 | On the array, do_bobble with all its refusals does what Powers.Toaded says. |
| `Play.DoUnbobble` | src/wiz.c:331-400 | On the array, do_unbobble makes the thing a player that owns itself, where it lies. |
| `Play.SweepOwner` | src/wiz.c:297-312 | The loop over the whole array gives away everything the victim owned, the victim first. |
| `Play.DoKill` | src/rob.c:54-127 | On the array, do_kill does what Powers.Killed says. |
| `Runs.RunKeepsSound` | src/move.c:10-348 | After any run of the eighteen commands by any players the invariant holds and rooms are still rooms. |
| `Runs.ReachableStates` | src/move.c:10-348 | In every state any run reaches, chains, places, homes, droptos and owners agree as the fields say. |
| `Runs.MinimalSound` | minimal.db:1-33 | The world of minimal.db satisfies the invariant. |
| `Runs.MinimalStored` | minimal.db:1-33 | The records of minimal.db store that world. |
| `Minimal.Loads` | minimal.db:1-33 | The text of minimal.db, a dump of the old format, is read as the two records of Runs.MinimalDb. |
| `Minimal.SpecimenLoads` | src/db.c:183-221 | One current dump, character by character: what is written for a specimen with all fields set, in which order and punctuation, and that it is read as that specimen. |
| `Runs.FromMinimal` | minimal.db:1-33 | Everything above holds in every state that any run from minimal.db reaches. |
| `Runs.PlayRun` | src/move.c:10-348 | The array, spliced in place through a whole run, stores the graph that the run reaches. |
| `Locks.NormEval` | src/boolexp.c:10-31 | Re-associating a lock to the right does not change who passes, for every player and every inventory. |
| `Locks.NormFixedIff` | src/boolexp.c:124-175 | The normal forms are exactly the right-associated trees. |
| `Locks.NormIdempotent` | src/boolexp.c:124-175 | Normalising twice is normalising once. |
| `LockText.ParsePrinted` | src/unparse.c:95-146 | Parsing a printed lock yields exactly its right-associated normal form and uses up the text. |
| `LockText.ParsePrintedIff` | src/unparse.c:95-146 | The same tree comes back if and only if it was right-associated; the meaning always does. |
| `LockText.PrintNorm` | src/unparse.c:95-132 | A lock and its normal form are printed alike, so printing is stable after one parse. |
| `LockText.PrecedenceReads` | src/boolexp.c:46-177 | '&' is and, '!' is not, the other operator is or: 'and' binds more than 'or' and 'not' more than both, parentheses group; three texts and the trees they are read as. |
| `LockText.TightPrinted` | src/unparse.c:95-132 | Where parentheses are printed: around an alternative in a conjunction and around what is negated. |
| `LockText.LoosePrinted` | src/unparse.c:95-132 | Where none are printed. |
| `LockText.NameReadIff` | src/boolexp.c:46-177 | To a parser that knows one name only, the text of that name is the lock on its object if and only if it has no lock operator or ')', does not start with '(', '!' or a blank, and does not end with a blank; any other text is no lock. |
| `LockText.NumberedNameFails` | src/unparse.c:70-90 | Limbo(#0R), as a name is printed for those who control the object, is no lock. |
| `LockParser.Parser.ParseBoolexpF` | src/boolexp.c:47-122 | The pointer-driven factor parser computes the grammar's result, terminates, and every allocation is in the result or freed. |
| `LockParser.Parser.ParseBoolexpT` | src/boolexp.c:124-148 | The same for conjunctions. |
| `LockParser.Parser.ParseBoolexpE` | src/boolexp.c:151-175 | The same for disjunctions. |
| `LockParser.ParseBoolexp` | src/boolexp.c:177-181 | For every input and every outcome of matching, which may differ from one occurrence of a name to the next, allocations minus frees is the node count of the result, zero for no lock. |
| `LockParser.Parser.FreeBoolexp` | src/db.c:383-401 | Freeing a lock gives back exactly its nodes. |
| `LockParser.UnparseBoolexp` | src/unparse.c:139-146 | Appending to the buffer yields the printed text, or *UNLOCKED*. |
| `Dump.StringReadIff` | src/db.c:267-282 | A string line is read back, and the stream left right behind it, if and only if it has no newline and at most 510 characters. |
| `Dump.RefReads` | src/db.c:254-265 | Every 32-bit number written is read back. |
| `Dump.StaleBuffers` | src/db.c:254-282 | At the end of the file getref and getstring give what they gave last. |
| `Dump.TreeReads` | src/db.c:146-174 | The disk form of every lock with non-negative constants is read back as the same tree. |
| `Dump.KeyReads` | src/db.c:176-181 | A key in the current form, or -1 for no lock as old dumps have it, is read back. |
| `Dump.ObjectReads` | src/db.c:456-499 | An object in any mixture of old and new format is read back, missing time stamps as 0 and ANTILOCK resolved, also one whose password leaves no room for its newline if there are no stamps, or only zeros. |
| `Settling.ObjectSettlesIff` | src/db.c:456-499 | In the current format, an object comes back exactly if every string leaves room for its newline, or if everything that is then read one line late is the same one line late: the exact condition, string by string. |
| `Settling.OwnedSettledIff` | src/db.c:267-282 | For an object whose owner is not 0, as in every sound world, the condition is that only the password has 511 characters, and then the three time stamps are 0. |
| `Dump.DumpReads` | src/db.c:441-520 | A dump whose objects are in arbitrary old and new formats is read back whole. |
| `Settling.DumpRoundTripIff` | src/db.c:183-221 | db_read of what db_write wrote rebuilds exactly the same array if and only if every object in it is settled in that sense. |
| `Settling.AcceptedSettlesIff` | src/db.c:441-520 | So with everything db_read accepts, old format or new: dumping and reading it once more changes nothing if and only if every object is settled. |
| `Settling.JoinedLoads` | src/db.c:267-282 | A dump with one line too long for a string is accepted, with the rest of the line as the next string. |
| `Dump.ModernMeaning` | src/db.c:284-297 | A key under the obsolete ANTILOCK flag becomes one that passes exactly those who failed it; no lock stays no lock. |
| `Dump.AcceptedIsTidy` | src/db.c:441-520 | Everything any accepted dump yields has line-sized strings, 32-bit numbers, non-negative lock constants and no ANTILOCK. |
| `DumpFiles.Writer.PutBoolSubexp` | src/db.c:146-174 | The recursive writer puts out the disk form. |
| `DumpFiles.Writer.DbWrite` | src/db.c:211-221 | The loop puts out the dump text and returns the number of objects. |
| `DumpFiles.Source.GetRef` | src/db.c:254-265 | Reading with fgets and peeking computes the number and the new stream state, stale buffer at end of file included. |
| `DumpFiles.Source.GetBoolexp1` | src/db.c:299-371 | The character-by-character lock reader, with its pushed-back characters, accepts and rejects as the grammar does. |
| `DumpFiles.Source.DbRead` | src/db.c:441-520 | The reading loop returns count, -1 or aborts, and leaves the array, as the specification of a dump says. |
| `Restarts.Reload` | src/db.c:183-221 | db_write and db_read, one after the other as they run, give the same array if and only if it is settled. |
| `Restarts.Restart` | src/db.c:441-520 | A restart of a settled world gives the same array, storing the same graph, and an index that is right for it. |
| `Restarts.FoundAgain` | src/player_list.c:78-87 | Through the new index every name is found as through the old one. |
| `Restarts.Boot` | src/db.c:441-520 | Reading the text of minimal.db and entering the players gives the world that all runs start with. |
| `Restarts.Session` | minimal.db:1-33 | Read from that text and then changed in place by any run of commands, the array stores a reachable graph, in order as the fields say. |
| `Streams.DropShortest` | src/text.c:40-60 | flush_queue drops the shortest run of oldest blocks that makes room, or everything. |
| `Streams.WriteDrops` | src/connection.c:79-89 | After a write the queue is what it was and the text if that fits in 16384 bytes; else one flush message, what is left of the queue without its first k blocks, and the text, where k is the least number that makes room, or all. |
| `Streams.DrainedMeans` | src/connection.c:131-157 | Of the queue remain the blocks behind those taken whole, without the bytes taken of the first of them; the connection is closed exactly if the call behind those is made and fails. |
| `Streams.WroteBounded` | src/connection.c:79-89 | After a write of n bytes at most max(16384, n + 17) bytes are queued, so never more than 16384 when n is at most 16367. |
| `Streams.WroteFaithful` | src/connection.c:79-89 | Writing, with or without a flush, keeps the account of what was written. |
| `Streams.DrainedFaithful` | src/connection.c:131-157 | Sending any part of the queue keeps it. |
| `Streams.WroteFramed` | src/text.c:40-60 | Markers on the wire are beginnings of the flush message and a marker in the queue is the rest of the one begun, also when writing flushes. |
| `Streams.DrainedFramed` | src/connection.c:131-157 | Sending keeps this, wherever a write breaks a marker off. |
| `Streams.ClientSees` | src/connection.c:79-157 | After any run of writes and partial sends: the bytes on the wire are the text sent, interleaved with whole or partial flush messages, and a queued marker is the rest of the last one begun; the text sent is a subsequence, in order, of that written and no longer queued; the queue is at most one marker and a suffix of what was written; without a flush sent and pending together are everything written. |
| `TextQueues.TextQueue.AddToQueue` | src/text.c:27-38 | The block goes on at the tail pointer; the tail again addresses the last link; nothing is added for no bytes. |
| `TextQueues.TextQueue.FlushQueue` | src/text.c:40-60 | The list becomes the marker and what DropFor leaves, tail repaired; the result is the decrease in queued bytes. |
| `Connections.Connection.QueueWrite` | src/connection.c:79-89 | output_size stays the sum of the queued block sizes while the queue follows the stream model. |
| `Connections.Connection.ProcessOutput` | src/connection.c:131-157 | For any results of the write calls the queue and output_size follow the stream model; the connection is closed if and only if a call that is made fails other than with EWOULDBLOCK. |
| `Connections.Connection.ProcessInput` | src/connection.c:95-129 | One read, of any size, does to saved commands and partial line what feeding its characters one by one does. |
| `InputLines.FeedIsLines` | src/connection.c:95-129 | Feeding characters is splitting at newlines, keeping up to 511 printable characters of each line and dropping empty ones. |
| `InputLines.PlainLine` | src/connection.c:95-129 | A line of up to 511 characters with codes 32 to 126 becomes one command, with what was in progress; an empty one none. |
| `InputLines.Ignored` | src/connection.c:95-129 | Any other character, and any after 511, leaves no trace. |
| `InputLines.ChunkingIrrelevant` | src/connection.c:95-129 | However the byte stream is cut into reads, commands and carried partial line are the same. |
| `Clocks.MsecDiffError` | src/time.c:15-18 | The truncating difference is within a millisecond of the exact one, also when microseconds are negative. |
| `Clocks.MsecAddExact` | src/time.c:20-28 | Adding milliseconds is exact and normalised. |
| `Clocks.SliceClock` | src/server.c:79-94 | After each update the slice clock is less than a millisecond ahead of and less than a second behind the real one. |
| `Clocks.SliceTimeout` | src/server.c:123-124 | The time-out computed for select is normalised and strictly positive. |
| `Clocks.RateLimit` | src/server.c:79-94 | If no turn serves more than the quota: commands served are at most the initial quota plus slices granted, quotas stay between 0 and 20, and slices granted are paid for by elapsed time. |
| `Clocks.RateOverTime` | src/server.c:79-94 | In any window a connection is served at most 20 commands and one per second of the window, up to a millisecond's slack. |
| `Throttles.ServedIsSpent` | src/main.c:84-108 | process_commands runs for a connection at most its quota, and takes from the quota exactly what it ran. |
| `Throttles.TurnSpends` | src/server.c:111-116 | One turn, quotas refilled, commands processed and new ones arrived, leaves a connection its refilled quota less what was run for it, between 0 and 20. |
| `Throttles.AfterSteady` | src/server.c:111-116 | After any turns, with connections coming and going, quotas are between 0 and 20 and the slice clock is close to the real one. |
| `Throttles.LogSplits` | src/server.c:111-116 | What is run over a whole run is what is run up to a moment and then what is run from the state reached. |
| `Throttles.ServedInOrder` | src/main.c:84-108 | Without QUIT, what process_commands runs for a connection is exactly the beginning of its queue, in order, as long as its quota. |
| `Throttles.WindowRate` | src/server.c:79-116 | After any beginning, in any window, process_commands runs for a connection at most 20 commands plus the slices granted, hence 20 and one per second of the window, up to a millisecond's slack. |
| `Backlogs.BacklogSpends` | src/main.c:84-108 | If process_commands leaves commands of a connection waiting, it has run as many as its quota. |
| `Backlogs.BacklogServed` | src/server.c:79-116 | Over a window in which commands are left waiting in every turn and no turn is more than 20 seconds late, exactly the slices granted, and what was saved up before, are run. |
| `Backlogs.WindowServed` | src/server.c:79-116 | After any beginning, over any such window, at least one command is run for every slice granted, and for every second but one: no command waits for ever. |
| `Servers.Server.UpdateQuotas` | src/server.c:79-94 | The loop refills every connection's quota, capped at 20, and returns the new slice clock. |
| `Schedules.PassShrinks` | src/main.c:90-107 | A pass that runs something leaves strictly fewer commands waiting, so the loop ends. |
| `Schedules.TurnsMin` | src/main.c:84-108 | Without QUIT a connection runs exactly min(quota, queued) commands. |
| `Schedules.RoundRobin` | src/main.c:84-108 | Commands run in waves, nobody's next one before everybody's current one, each connection's in the order sent; at the end every connection is out of quota, out of commands or closed. |
| `Servers.Server.ProcessCommands` | src/main.c:84-108 | The nested loops over the connection objects, decrementing quotas and popping input queues, run exactly that schedule. |
| `Servers.Server.RunTurn` | src/server.c:111-116 | update_quotas and then process_commands, on the connection objects, do what one turn of those runs does. |
| `Names.StringCompare` | src/string.c:7-12 | The result is zero exactly when the strings are equal but for capitals and small letters, 32 apart. |
| `Names.SameNameSameHash` | src/player_list.c:27-38 | Names equal up to case fall into the same bucket. |
| `Names.SameNameIff` | src/string.c:5-12 | Names are the same exactly if they have the same length and at every place the same character or a capital and a small letter 32 apart. |
| `Names.Hash` | src/player_list.c:27-38 | The hash is always a bucket number, 0 to 4095, for every table init_hft can make. |
| `Names.HashFunction` | src/player_list.c:27-38 | The loop computes that hash. |
| `Directories.LookupsAgree` | src/player_list.c:78-87 | While every player is on its bucket's chain and names are unique, the index finds exactly what the linear scan finds. |
| `Directories.CreatedSound` | src/player.c:39-65 | Creating a player keeps index and unique names. |
| `Directories.RenamedSoundIff` | src/set.c:45-89 | Renaming a player keeps them if and only if it is not a rename, of a player without a password, to somebody else's name. |
| `Directories.RenamedDisagrees` | src/set.c:66-68 | If a lower-numbered player has the name that is stored unchecked, the index finds the renamed player and the scan the other one. |
| `Directories.RenamedShadows` | src/set.c:66-68 | If only a higher-numbered player has it, both lookups agree on every name, and under this name and all that equal it up to case they find the renamed player. |
| `Directories.RenamedAgreesIff` | src/set.c:45-89 | After a renaming both lookups agree on every name if and only if the name was not stored unchecked while a lower-numbered player had it. |
| `Directories.ToadedSound` | src/wiz.c:229-329 | Toading keeps index and unique names. |
| `Directories.UntoadedSound` | src/wiz.c:331-400 | Untoading keeps them. |
| `Directories.RepasswordedSound` | src/player.c:67-77 | Changing one's password keeps index and unique names. |
| `Directories.NewPasswordedSound` | src/wiz.c:402-438 | So does a password, or none, given by a wizard. |
| `Directories.RenamedOtherSound` | src/set.c:87-102 | So does renaming things, rooms and exits. |
| `Directories.CreatedFound` | src/player.c:39-65 | A new player is found under its name and no other lookup changes. |
| `Directories.RenamedFound` | src/set.c:45-89 | A renamed player, with a stored password or a free name, is found under the new name, nobody under the old one, and no other lookup changes. |
| `Directories.ToadedFound` | src/wiz.c:320-327 | A toad is not found any more, and no other lookup changes. |
| `Directories.UntoadedFound` | src/wiz.c:376-398 | An untoaded player is found under the new name, and no other lookup changes. |
| `Directories.RunsAgree` | src/player_list.c:27-111 | After any run of creations, renamings, toadings, untoadings and changes of passwords both lookups agree on every name. |
| `Directories.StepsAlike` | src/player_list.c:27-111 | What these commands do to names, passwords and index depends on names, passwords, types and index alone. |
| `Witnesses.UnlinkGoesWrong` | src/set.c:207-243 | From minimal.db, @open and get lead to a carried exit, and unlinking it breaks the invariant. |
| `Witnesses.UntoadGoesWrong` | src/wiz.c:331-400 | From minimal.db, @create leads to a carried thing, and untoading it breaks the invariant. |
| `Witnesses.RenameGoesWrong` | src/set.c:66-68 | From minimal.db, the wizard's creating a player and taking its password lead to a sound world in which do_name gives the player the wizard's name and the lookups disagree. |
| `Witnesses.DumpGoesWrong` | src/db.c:267-282 | A dump is accepted whose world is that of minimal.db but for a name of 511 characters and a description; written and read again it is another. |
| `Worlds.FoundIsPlayer` | src/player_list.c:78-87 | Whoever the index finds is a player of the graph, as do_chown, do_recycle and do_bobble need it. |
| `Worlds.StepSound` | src/player_list.c:27-111 | Every command keeps graph, index, unique names and the types both see, with players looked up in the index. |
| `Worlds.TraceSound` | src/player_list.c:27-111 | So does every run, at each of its states. |
| `Worlds.GoesOn` | src/player_list.c:27-111 | A run can be continued by every legal command: that its states are sound is a result and not a restriction. |
| `Worlds.WorldMeans` | src/player.c:9-20 | In such a world every owner is a player of the index, and index and scan find the same player of the graph for every name. |
| `Worlds.OneArray` | src/db.h:102-130 | Graph and directory of a world can be read off one array, any that stores the graph and has the names and passwords: it is sound as well, and every name is found as before. |
| `Worlds.MinimalWorld` | minimal.db:1-33 | minimal.db with its one player entered in the index is such a world. |
| `PlayerLists.PlayerList.AddPlayer` | src/player_list.c:66-76 | The element goes in front of its bucket's chain; all other chains stay. |
| `PlayerLists.PlayerList.LookupPlayer` | src/player_list.c:78-87 | The chain walk returns the first player of that name in the bucket, or NOTHING; with a sound index, the player whose name the given one respells. |
| `PlayerLists.PlayerList.DeletePlayer` | src/player_list.c:89-111 | The chain loses the player, wherever it is on it; all other chains stay. |
| `PlayerLists.PlayerList.ClearPlayers` | src/player_list.c:49-64 | All chains are empty. |
| `PlayerLists.PlayerList.Rebuild` | src/db.c:448-503 | Entering every player read makes the index right for the whole database. |
| `Registries.LinearLookup` | src/player.c:11-21 | The scan returns the lowest-numbered player of that name, or NOTHING. |
| `Registries.StartsWord` | src/predicates.c:142-153 | Whether the letter stands at the front or behind a space. |
| `Registries.AllGraphic` | src/predicates.c:186-190 | Whether all characters are printable and not blank. |
| `Registries.SplitPassword` | src/set.c:44-54 | The name up to the first blank, and what is behind the blanks. |
| `Registries.Registry.NameIsOk` | src/predicates.c:155-177 | ok_name, with the reserved names compared one by one. |
| `Registries.Registry.PlayerNameIsOk` | src/predicates.c:155-194 | ok_name, length, characters and availability of a player name. |
| `Directories.OkNameIff` | src/predicates.c:155-177 | Acceptable names: not empty, without lock operators and '=', not called by special characters, no word that starts with '!', and no respelling of eleven reserved words. |
| `Directories.OkPlayerNameIff` | src/predicates.c:179-194 | Names for players: acceptable, at most 16 characters with codes 33 to 126, and no respelling of a player's name. |
| `Registries.Registry.CreatePlayer` | src/player.c:39-65 | Database and index after create_player are those of Directories.Created. |
| `Registries.Registry.RenamePlayer` | src/set.c:45-89 | Database and index after renaming a player are those of Directories.Renamed. |
| `Registries.Registry.DoName` | src/set.c:31-102 | do_name: names and index are those of Directories.Named, for players and for everything else. |
| `Registries.Registry.SetPassword` | src/player.c:67-77 | A password is changed exactly if there is one, the old one is given, and the new one is good. |
| `Registries.Registry.NewPassword` | src/wiz.c:402-438 | A wizard gives whoever the index finds a good password or none; only GOD does so with GOD. |
| `Registries.Registry.ToadPlayer` | src/wiz.c:296-327 | Names and index after toading are those of Directories.Toaded. |
| `Registries.Registry.UntoadThing` | src/wiz.c:366-398 | Names and index after untoading are those of Directories.Untoaded. |
| `Aliases.StringPrefix` | src/string.c:14-19 | Whether one string begins with another, up to case. |
| `Aliases.StringMatch` | src/string.c:22-38 | The first word, the front of the string included, that begins with the given text; none for an empty text. |
| `Aliases.AliasesOfJoined` | src/match.c:169-194 | Aliases written between ';' are the ones the scan takes apart again. |
| `Aliases.AnswersIff` | src/match.c:169-194 | An exit answers to a name if and only if the name fits, up to case and trailing spaces, one of its aliases other than an empty last one. |
| `Aliases.AnswersToAlias` | src/match.c:169-194 | For a name that is not empty: if and only if it fits some alias. |
| `Aliases.AliasesHaveNoDelimiter` | src/match.c:169-194 | No alias contains a ';', so no name with one is ever answered to. |
| `Aliases.ExitAnswers` | src/match.c:169-194 | The pointer-scanning loops decide exactly that. |
| `Matching.AbsoluteNameOf` | src/match.c:82-95 | Every object can be called by its number. |
| `Matching.Match.ChooseThing` | src/match.c:34-67 | The preferred type wins, then the passable lock, then the coin. |
| `Matching.Query.BestMeans` | src/match.c:34-67 | The choice has the preferred type if any candidate has, and, if keys count, among those of its kind it lets the player pass if any does. |
| `Matching.Query.BestSnoc` | src/match.c:132 | However a tie is broken, folding in one more candidate keeps the choice among those of the highest rank. |
| `Matching.Query.BestConcat` | src/match.c:202-212 | Choosing list by list is choosing from all lists at once. |
| `Matching.Query.BestList` | src/match.c:118-138 | Choosing on a list up to the object called by number, and then that object, is choosing among the full matches of the list. |
| `Matching.Match.MatchList` | src/match.c:118-138 | For every name: a highest-ranked full match among the objects before the one called by number, which ends the search, or that object; count and last are those of the partial matches before it. |
| `Matching.Match.MatchExit` | src/match.c:152-200 | A highest-ranked exit among those that answer, one called by number displacing those before it. |
| `Matching.Match.MatchNeighbor` | src/match.c:144-150 | The same on the contents of the player's room. |
| `Matching.Match.MatchPossession` | src/match.c:140-142 | The same on what the player carries. |
| `Matching.Match.MatchMe` | src/match.c:105-109 | "me", up to case, is the player; any other name changes nothing. |
| `Matching.Match.MatchHere` | src/match.c:111-116 | "here", up to case, is the player's location. |
| `Matching.Match.MatchAbsolute` | src/match.c:97-103 | A '#' and the number of an object call that object. |
| `Matching.Match.MatchPlayer` | src/match.c:69-79 | A '*' and the name of a player, blanks skipped, call the player the index finds. |
| `Matching.Match.MatchEverything` | src/match.c:202-212 | For every name: what it means as "me", "here", a number or a player if it means anything of that kind, and otherwise the full and partial matches among exits, neighbours and possessions. |
| `Matching.Match.MatchResult` | src/match.c:214-227 | A full match if any, else the only partial one, else NOTHING or AMBIGUOUS by their number. |
| `Matching.ExactlyIff` | src/match.c:152-200 | Who counts as a full match, in terms of names and places alone, for names that call no object by number. |
| `Matching.PartiallyIff` | src/match.c:118-150 | Who counts as a partial match, each once: things and players here or carried, not of that name, with a word that begins with it. |
| `Matching.PartialMeans` | src/match.c:214-227 | Without a full match: NOTHING if nobody has such a word, AMBIGUOUS if two do, else the one who does. |
| `Matching.Resolve` | src/match.c:202-227 | For every name and every fall of the coins: what it is called specially; else a full match of the highest rank if there is one, else the only partial match, else NOTHING or AMBIGUOUS. |
| `Matching.ResolveDestination` | src/wiz.c:112-116 | What do_mass_teleport looks up is NOTHING or an object, never AMBIGUOUS. |
| `Matching.ResolveExit` | src/move.c:185-199 | What do_move looks up is NOTHING, AMBIGUOUS or an exit of the player's room: the condition Runs.Legal puts on going. |
| `Matching.ResolveCarried` | src/move.c:279-282 | What do_drop looks up is NOTHING, AMBIGUOUS or something the player carries. |
| `Rankings.SortedOrders` | src/wiz.c:692-719 | The sorted list has exactly the objects that count, most used first, ties in the order of creation. |
| `Rankings.OrderedUnique` | src/wiz.c:692-719 | There is only one such list. |
| `Rankings.RollDown` | src/wiz.c:711-716 | Everything from the place on moves down one, the last falls off, in place. |
| `Rankings.FillTop` | src/wiz.c:686-719 | The bounded insertion sort leaves in the array the first num objects of the whole sorted list and NOTHING behind them. |
| `Rankings.DoTop` | src/wiz.c:640-748 | What is printed, for any argument texts, including the refusals. |
| `Rankings.TopIsTop` | src/wiz.c:686-719 | Whatever is shown has been used and is of the kind asked for; nothing left out has been used more, or as much and was created before it. |

## Left out

- Commands.FlagsSet: does not model which flags do_set and which keys do_lock let a player set; it covers any change above the type bits of a controlled object.
- Commands.Opened: takes whether the name is acceptable and whether the payment goes through as arguments; pennies are not part of the graph. The same holds for Dug, Created, LinkSet and Killed.
- Powers.Teleported: takes what the matcher returned for victim and destination as arguments; Matching says what it can return. The same holds for the other commands.
- Databases.Database.EnterRoom: leaves out the usecnt and lastused stamps and the penny found now and then; Play changes only what the graph is made of.
- Play.DoMove: leaves out the usecnt and lastused stamps on the exit, and Play.DoGet those on the thing.
- Play.DoGet: leaves out those stamps.
- Play.DoRecycle: does not rename the object, empty its messages or return its pennies.
- Play.DoBobble: leaves out the new name and the index entry, which are in Registries.Registry.ToadPlayer and in Worlds.
- Play.DoUnbobble: leaves out the pennies and the index entry, which is in Registries.Registry.UntoadThing and in Worlds.
- Play.DoKill: takes payment and dice as arguments and leaves out the insurance pennies.
- Play.DoSet: takes flag and key as given, as Commands.FlagsSet does.
- Runs.Perform: gives new objects placeholder names, since names are not part of the graph.
- Dump.DumpReads: for old formats and ANTILOCK keys, leaves out objects owned by object 0 whose other strings have 511 characters; Settling.ObjectSettlesIff has them for the current format.
- Numbers.AtolDecimal: does not model overflow of atol itself; the conversion of its result to a 32-bit int is modelled.
- DumpFiles.Source.DbRead: counts an empty line behind '*' as an abort, where the C code compares a null pointer. Its calls of add_player are in PlayerLists.PlayerList.Rebuild.
- LockParser.Parser.ParseBoolexpF: does not model the fixed-size name buffer, reading past the end of the text after an unclosed '(', or looking at the character before an empty name.
- LockParser.UnparseBoolexp: does not model the fixed size of boolexp_buf.
- Connections.Connection.ProcessOutput: models a write as an arbitrary accepted count, with EWOULDBLOCK as a flag.
- Servers.Server.ProcessCommands: keeps the connections in a sequence that is written back at the end; the only command whose effect on connections is modelled is QUIT, and no command frees the connection that is being served.
- Registries.Registry.RenamePlayer: starts when new name and password are already split apart, as DoName does with SplitPassword; whether the player controls the object is in Worlds.
- Registries.Registry.ToadPlayer: covers names, password, type and index; owners and places are in Powers.Toaded.
- Registries.Registry.UntoadThing: leaves out the wizard guard and the matching; the guard is in Powers.Untoaded.
- Clocks.RateLimit: supposes that no turn serves more than the quota, which Throttles.WindowRate proves of process_commands. The same holds for RateOverTime.
- Worlds.Step: is a pair of functions, on the graph and on the directory; the methods on the array are in Play for the one and in Registries for the other, and no single method performs both. Of the records it follows what the graph is made of, names, passwords, types and the index.
- Rankings.DoTop: returns the objects shown instead of formatting lines.
- Names.Hash: takes characters modulo 256; the C code indexes its table with a plain char.
- Sockets, select, signals, forking and renaming dump files, and the command table of src/game.c.
- Messages to players: look, examine, inventory, help, speech, notify and logging.
- Pennies: rob, give, endowments, rewards and the penny found now and then.
- Connecting with a password, gender pronouns, time formatting, @stats, @count, @date, @boot and @force.
- Memory: freed blocks, db_grow and the capacity of the array.
