# JSON parser, value store and JSON-RPC engine: a verified model

The program is a C library for JSON-RPC 2.0. It has an incremental, character-driven JSON parser generated by Ragel
(`src/json_parser.rl`, `src/json.rl`), a store of reference-counted JSON values with a printer and an equality
(`src/json.c`), the intrusive circular list that carries them (`src/list.h`), and an RPC engine that defers every call
and result through the event loop (`src/json_rpc.c`). This project models these parts and proves what they are for.

**Parser.** `Machine` is the machine byte by byte: an explicit call stack, a parallel stack of contexts
`(cur_obj, add)`, the pending key, the token being read. `Parser.JsonParser` is the imperative parser with the offsets
`off`, `p_start` and the drain mark, proved to take exactly the machine's steps; it sees the caller's buffer only
through those offsets. `Grammar` is json.rl read as a recursive grammar, with the tree a derivation stands for.
`ShapeInvariant`, `Completeness`, `Soundness` and `Parsing` connect the two: the machine delivers a value if and only
if the text derives from the grammar, and on a stream it delivers exactly the valid top-level containers and reports
one error exactly where no valid continuation is left. `Printing` proves that parsing undoes printing, with the exact
condition on the tree, and accounts for the length of the print buffer. `Alphabet` lists the bytes and tokens of the
grammar, `Decimals` says what the number conversions compute, digit by digit. `Sessions` covers connections that are fed in
pieces and drained on the way, `Draining` what a drain in the middle of a token does.

Ragel's operators are read this way: `>` runs on the entering byte (of a zero-length match: on the byte after it), `%`
on the leaving byte, `%to` on arrival in the final state, also when `fret` arrives there, `fcall` and `fret` push and
pop and then go past the byte, `fbreak` goes past the byte and stops. A byte for which a machine has no transition is
an error; `A_err` then runs where `$err` or `$lerr` has put it.

**Values.** `Values` holds the tree and the association list behind an object; `Doubles` the numbers a C `double` can
hold, with rounding to the nearest; `Equality` and `Epsilon` the algebra of `json_equals`; `LinkedList` and `Containers` the pointer structure and its refinement of sequences and ordered maps; `Store` the reference counts over a
shared heap; `Sharing` what counting means to its callers.

**JSON-RPC.** `Messages` holds the classifiers of both directions and the replies, and `Entries` says which objects they
accept and what the replies hold, entry by entry; `Protocol` the server as a state
machine over its deferred events with the conservation invariant; `Schedules` what every schedule of callbacks delivers,
down to which handler's result goes out under which id; `LateReturns` handlers that return later; `Batches` in which order a batch is answered; `References` who owns
the references to the ids; `Engine` the imperative server proved against `Protocol`; `Client` the registry of pending
calls; `Exchange` the whole exchange between client and server, and `Wire` the same between two peers, over printed, cut
and parsed bytes, each message routed as `json_rpc_tt_read` routes it. The event loop is a bag: any queued event may be
the next one.

Things the proofs brought out, each with a lemma:

- `p_start` is not shifted by a drain, so a token that is open then is later read without its first bytes. The bytes of
  a string or key are always other ones (`Draining.StaleText`). A number is harmed exactly when what `atoi` or `atof`
  makes of the memory at `p_start`, blanks and signs included, is another value (`Draining.StaleNumber`). The contract
  of `Draining.StaleDrain` states a harmed string, that of `Draining.StaleBlank` a number that is harmed because of the
  blank in front of the next one.
- The print buffer is two bytes short for every empty array or object in the tree (`Printing.JsonToString`).
- Where no array holds two equal entries, and doubles left aside, `json_equals` accepts the trees that differ in nothing
  but the order of entries (`Equality.EqualRearranged`). It is symmetric at a tree exactly when no array in it holds two
  equal entries (`Equality.SymmetricExact`), and, among trees of finite doubles, transitive at a tree exactly when every
  double in it is larger than 2^29 in magnitude, where no two different doubles are within epsilon
  (`Epsilon.TransitiveExact`). Compared with trees that hold NaN as well, it is transitive exactly when no double in the
  tree is a number (`Epsilon.TransitiveAmongAll`).
- A handler that returns after its callback is answered for under the right id exactly when no event of the same record
  has fired since, or the last one that has carries the same id (`LateReturns.LateReturnExact`); a call outside a batch
  may be returned as late as its handler likes (`LateReturns.LoneCallMayBeLate`).
- The reference taken to each call's id is used up exactly once when handlers return inside their callbacks
  (`References.UsedOnce`); with late returns one id can be left over and another be used up twice
  (`References.LateReturnsLeak`).
- The reply to a batch finds its pending call exactly when every element refused as invalid carries the id null
  (`Exchange.ReplyMatchesExactly`); a pending id can take another request's response exactly when an array in it holds
  two equal entries (`Client.ConfusedExactly`).
- An empty array passes as a response (`Messages.BatchesAreNotResponses`), and so does a valid call that also carries a
  `result` (`Messages.CallsAreNotResponses`). The peer takes such a request for a response to a call of its own, so it is
  never answered: `Wire.Conversation` is answered if and only if the request does not look like a response, and
  `Wire.SwallowedRequest` is one that does.
- A value put into itself is never freed (`Sharing.ArrayInItself`). `json_object_add` deletes an older entry with the key
  before it links the new one; the object is still there exactly when callers, or other values that stay, hold it
  without that entry (`Sharing.ObjectAddSafeExactly`), and `Sharing.AddToUnheld` shows one that is not.

## Model

| member | source | states |
|---|---|---|
| Parsing.ParseExact | src/json_parser.rl:281-294 | `json_parser_parse` delivers the value t, and nothing else, if and only if the text derives from `json_value` with tree t; otherwise it delivers nothing (strings and keys as the bytes of their tokens, escapes not decoded) |
| Parsing.StreamExact | src/json_parser.rl:156 | for any bytes, `main` delivers the trees of a stream that starts the input; every stream that starts the input has been delivered, in order; one error is reported if the input is no prefix of a valid stream, none if it is (strings and keys as the bytes of their tokens, escapes not decoded) |
| Parsing.ErrorExact | src/json_parser.rl:142-146 | the stream parser has failed if and only if no continuation of what it read is a stream of arrays and objects |
| Parsing.ErrorAbsorbs | src/json_parser.rl:335-344 | once the input is not viable, further input changes nothing: no value, no second error |
| Parsing.CloseAll | src/json.rl:27-28 | no dead ends: from every state that is not the error state some bytes close all open containers |
| Parsing.Unambiguous | src/json.rl:4-28 | one text never stands for two trees |
| Parsing.StepErrors | src/json_parser.rl:142-146 | one byte reports at most one error, exactly when it leads to the error state, and then delivers nothing |
| Machine.RunConcat | src/json_parser.rl:296-316 | reading two pieces one after the other is reading them at once: the state between calls is all that matters |
| Machine.FailedForever | src/json_parser.rl:142-146 | the error state is absorbing for every input |
| ShapeInvariant.StepShape | src/json_parser.rl:55-90 | every byte keeps the shape: as many contexts as stacked machines, the level fits the type of `cur_obj` and its `add`, each saved context's latest entry is the next object, the pending key is set exactly between a name and its value, the root array holds at most one element and none between top-level values, and all objects have distinct keys |
| ShapeInvariant.RunShape | src/json_parser.rl:241-260 | the shape holds after any input |
| ShapeInvariant.EndShape | src/json_parser.rl:182-194 | `parser_pop_context` and `fret` restore a fitting parent with the finished child as its latest entry |
| ShapeInvariant.BeginShape | src/json_parser.rl:196-215 | `begin` and `fcall` keep the shape one level deeper |
| Completeness.RunValue | src/json.rl:23-24 | reading the text of any derivation, in any place where a value may start, has the effect of adding its tree there, at any depth of the explicit stack |
| Completeness.CloseBox | src/json_parser.rl:77-90 | opening a container, filling it and closing it leaves the parent as if the whole child had been added at once |
| Completeness.SingleComplete | src/json_parser.rl:155 | the text of a derivation followed by NUL delivers its tree, once, without error |
| Completeness.StreamComplete | src/json_parser.rl:156 | a stream of derived arrays and objects is delivered in order, without error, leaving the stack empty |
| Soundness.StepSound | src/json_parser.rl:48-158 | every byte that is not an error extends partial derivations by exactly that byte, and their value is what the machine has built |
| Soundness.RunSound | src/json_parser.rl:296-316 | whatever has been read without error is the text of partial derivations, one per level of the stack |
| Soundness.ClosedDerives | src/json.rl:27-28 | a container being closed is derivable and its tree is the value the machine holds in `cur_obj` |
| Soundness.BeginMatches | src/json_parser.rl:209-215 | `begin` adds one empty frame and suspends the old one with the new child as its latest entry |
| Lexical.TextAutomatonExact | src/json.rl:14-22 | the string machine is between tokens exactly after a `uni_token*` |
| Lexical.NumberAutomatonExact | src/json.rl:8-10 | the number machine accepts exactly `integer` and `float`, tells them apart, and they never overlap |
| Lexical.ScanNumberExact | src/json.rl:8-10 | each state of the number machine is reached by exactly one family of texts |
| Conversions.ConversionStopsAtToken | src/json_parser.rl:98-111 | at a token, `atoi` and `atof` return the value of the token alone, whatever follows the byte that ended it (which value that is: `Decimals.IntegerValue`, `Decimals.FloatValue`) |
| Decimals.FloatValue | src/json_parser.rl:98-104 | the value of a float is the nearest double to its digits w and f around the point, as one number over ten to the length of f, times or divided by ten to the power written; negated under "-" |
| Decimals.FloatHasParts | src/json.rl:9 | every float is written in such parts |
| Decimals.PartsAreFloat | src/json.rl:9 | and whatever is written in such parts is a float |
| Decimals.IntegerValue | src/json_parser.rl:105-111 | the value of an integer is that of its digits, negated under "-", as an int |
| Decimals.ToIntExactly | src/json_parser.rl:105-111 | the int keeps the low 32 bits of the number; beyond a long it is -1 or 0 |
| Decimals.MagnitudeOfDigit | src/json_parser.rl:98-111 | each of the ten digits has its value |
| Decimals.MagnitudeOfDigits | src/json_parser.rl:98-111 | digits further left count ten times as much for each place |
| Decimals.AtoiReads | src/json_parser.rl:105-111 | `atoi` on any memory: white space, a sign, and the digits up to the first byte that is none |
| Decimals.AtoiNothing | src/json_parser.rl:105-111 | where no digit comes, zero |
| Decimals.AtofReads | src/json_parser.rl:98-104 | `atof` on any memory: white space, a sign, and the longest decimal number, with an integer part, a fraction, a bare point and a power there or not |
| Decimals.AtofWords | src/json_parser.rl:98-104 | the words for NaN and the infinities, in letters of either case |
| Decimals.AtofNothing | src/json_parser.rl:98-104 | where no number comes, zero |
| Decimals.TieGoesEven | src/json_parser.rl:98-104 | a number halfway between two neighbouring doubles goes to the one with the even mantissa |
| Decimals.DoubleTextIs | src/json.c:578-583 | `%f` writes the sign, an integer part without superfluous zeros, and six digits, which are as near to the double as six digits can be, even on a tie |
| Alphabet.ListedBytes | src/json.rl:17-19 | the digits, hexadecimal digits and plain bytes of a string, listed |
| Alphabet.TokenExactly | src/json.rl:16-22 | the tokens of a string, byte by byte |
| Doubles.RoundIsNearest | src/json_parser.rl:98-104 | rounding gives a double no further away from the number than any other double, or an infinity |
| Doubles.RoundMonotone | src/json.c:404-410 | rounding, of `atof`'s result and of the difference `double_equals` looks at, never turns the order of two numbers round |
| Doubles.RoundKeeps | src/json_parser.rl:98-104 | what is a double already is not changed |
| Conversions.IntTextValue | src/json.c:571-576 | `atoi` undoes `%d` on every 32-bit int, and the text is an `integer` |
| Conversions.WidthStaysInside | src/string_functions.c:123-143 | inside an escape-free token text a whole UTF-8 group never passes the end |
| Conversions.InterpretateEscSeq | src/string_functions.c:109-152 | on an escape-free token text the copy loop is the identity, byte for byte, and never leaves the token |
| Parser.JsonParser.constructor | src/json_parser.rl:241-272 | a new parser stands for the initial state of its entry point |
| Parser.JsonParser.Exec | src/json_parser.rl:296-316 | one round of the loop is one step of the machine on the byte at `off`; the mark moves behind that byte exactly when it completes a value; `0 <= ready_for_drain <= off`, and `ready_for_drain <= p_start` while a token is open |
| Parser.JsonParser.Process | src/json_parser.rl:296-316 | processing a longer buffer has the machine's effect on exactly the bytes not seen before, whatever the buffer held; the drain mark ends up behind the last of them that completed a value |
| Parser.JsonParser.Drain | src/json_parser.rl:346-366 | returns the mark, and the parser's state, open token included, is the same on the remaining buffer if and only if no token is open or the mark was 0 |
| Parser.JsonParser.BeginContainer | src/json_parser.rl:55-76 | refines the machine's opening of a container |
| Parser.JsonParser.EndContainer | src/json_parser.rl:77-90 | refines closing: the mark goes behind the bracket, the context is popped, a finished top-level value is delivered |
| Parser.JsonParser.HandleJsonObject | src/json_parser.rl:318-326 | element 0 leaves the root array and is handed over once |
| Parser.JsonParser.SaveNumber | src/json_parser.rl:98-111 | what is stored is what the conversion makes of the memory from `p_start` on, whatever that memory is |
| Parser.SavedNumber | src/json_parser.rl:98-111 | when the token is where `p_start` says, that is the value of the token alone |
| Parser.StaleWindow | src/json_parser.rl:358-366 | an open token read at its old offset in the drained buffer has lost exactly its first n bytes |
| Sessions.JsonParserParse | src/json_parser.rl:281-294 | on a C string: the value t comes back if and only if the string derives from `json_value` with tree t |
| Sessions.Connection | src/json_parser.rl:296-316 | for any cut of the input into pieces and any drains at allowed moments, state and deliveries are those of feeding everything at once |
| Sessions.Stream | src/json_parser.rl:296-366 | what such a connection delivers, and whether it reports an error, in terms of the grammar alone |
| Sessions.LongerBuffer | src/json_parser.rl:296-316 | bytes behind the current one do not matter to the parser's state |
| Draining.TokenUnseen | src/json_parser.rl:91-151 | while a token is open the machine moves the same way whatever its bytes were: only the action that closes it reads it |
| Draining.StaleToken | src/json_parser.rl:358-366 | after a drain of n bytes and any further bytes of the token, `p_start` finds the token without its first n bytes |
| Draining.StaleText | src/json_parser.rl:91-97 | closed by a quote, a stale string or name always stores another string or keeps another key, as far as the bytes of the token go (escapes not decoded) |
| Draining.StaleNumber | src/json_parser.rl:346-366 | a parser drained with a number open, given the rest of the number in whatever memory follows the mark, stores what `atoi` or `atof` makes of the memory at `p_start`, and ends where an undrained parser would if and only if that is the number's value |
| Draining.LeadingZeros | src/json_parser.rl:105-111 | a lost leading zero changes nothing, so the drain is not always harmful |
| Draining.StaleDrain | src/json_parser.rl:346-366 | the contract states: after `[[],"abcdef` the drain returns 3, and the rest `"]` delivers the string "def" |
| Draining.Undrained | src/json_parser.rl:296-316 | the contract states: the same bytes without the drain deliver the string "abcdef" |
| Draining.StaleBlank | src/json_parser.rl:346-366 | the contract states: after `[9, 0` the drain returns 3, and when `,  23]` follows, the list 9, 23, 23 is delivered, for `atoi` skips the blank and reads the next number |
| Printing.Buffer.Print | src/json.c:525-603 | appends exactly the value's text to what the buffer holds |
| Printing.StringLength | src/json.c:605-663 | the computed length is the length of the text minus two for every empty array or object |
| Printing.JsonToString | src/json.c:331-345 | the result is the text; the bytes allocated suffice for it and its NUL if and only if no container in the tree is empty |
| Printing.PrintWritten | src/json.c:525-603 | what is printed for each kind of value, for empty containers and for containers of one entry |
| Printing.ElemsJoined | src/json.c:525-542 | wherever an array is cut in two, the texts of its halves are joined by a comma and a space |
| Printing.MembersJoined | src/json.c:552-569 | the same for objects |
| Printing.ParseUndoesPrint | src/json.c:525-603 | for a tree without doubles and backslashes: parsing its text delivers that very tree, once, same order, if and only if all objects have distinct keys and all strings and keys are whole `uni_token`s |
| Printing.StreamUndoesPrint | src/json_parser.rl:156 | any sequence of printed arrays and objects arrives on a connection as that sequence, without error |
| Printing.TreesAreText | src/json.rl:22-26 | every tree the grammar can yield has `uni_token*` strings and keys |
| Values.LookupFindsEntries | src/json.c:273-288 | with distinct keys a lookup finds exactly the entries there are |
| Values.WithoutIsMapRemoval | src/json.c:290-307 | `json_object_del` removes one key from a map and nothing else |
| Values.WithIsMapUpdate | src/json.c:309-329 | `json_object_add` is a map update that keeps keys distinct and moves the key to the tail |
| Values.WithKeepsKeyed | src/json.c:309-329 | keys stay distinct at every level |
| LinkedList.Link | src/list.h:39-47 | `__list_add` puts a node behind position k of the ring, payloads unchanged |
| LinkedList.ListAdd | src/list.h:57-60 | prepends |
| LinkedList.ListAddTail | src/list.h:70-73 | appends |
| LinkedList.ListDel | src/list.h:82-98 | removes the node at any position, the rest stays a ring in the same order, the node's links are cleared |
| LinkedList.ListEmpty | src/list.h:137-140 | true exactly when the head is alone |
| LinkedList.ListSplice | src/list.h:142-165 | the entries of one list come in front of another's, in order; the first list's head keeps its stale links |
| Containers.JsonArrayLength | src/json.c:196-207 | the walk counts the contents |
| Containers.JsonArrayGet | src/json.c:210-226 | the walk returns the entry at the index, or NULL when there is none |
| Containers.JsonArrayAdd | src/json.c:228-240 | appends to the contents |
| Containers.JsonArrayDel | src/json.c:243-260 | safe iteration removes exactly the entry at the index, or nothing when there is none |
| Containers.JsonObjectGet | src/json.c:273-288 | the walk computes the lookup of the association list |
| Containers.JsonObjectDel | src/json.c:290-307 | safe iteration removes the first entry with the key, leaving a well-formed list |
| Containers.JsonObjectAdd | src/json.c:309-329 | on pointers, refines the map update of `WithIsMapUpdate` |
| Store.JsonStore.Create | src/json.c:109-122 | a fresh value with count one, owed by the caller, nothing else changed |
| Store.JsonStore.RefGet | src/json.c:362-369 | one more count and one more reference the caller holds; NULL is passed through |
| Store.JsonStore.RefPut | src/json.c:352-359 | every count stays the caller-held references plus the container entries pointing there; only the given reference is gone; a value whose last reference it was is freed, any other only loses one count; nothing out of its reach changes; nothing that callers or other kept values hold is freed; terminates |
| Store.JsonStore.Delete | src/json.c:477-523 | a value whose count reached zero is freed after exactly the references of its entries were given back |
| Store.JsonStore.ArrayAdd | src/json.c:228-240 | the caller's reference becomes the entry's; refused for NULL and for what is not an array, and then the caller keeps it |
| Store.JsonStore.ArrayDel | src/json.c:243-260 | the entry is unlinked and what only it kept alive is released |
| Store.JsonStore.ObjectGet | src/json.c:273-288 | returns the value of the first entry with the key, which exists, or NULL |
| Store.JsonStore.ObjectDel | src/json.c:290-307 | the first entry with the key is unlinked and released |
| Store.JsonStore.ObjectAdd | src/json.c:309-329 | after releasing an older value with the key, the new entry is the last; counts stay right; the object still exists, given that it is held without the old entry |
| Store.NothingDangles | src/json.c:352-369 | no caller-held reference and no entry of a live value points to freed memory |
| Store.EntryHasHolder | src/json.c:352-359 | every counted entry belongs to a live container |
| Store.Survives | src/json.c:352-359 | values that callers or each other hold survive a release unchanged |
| Sharing.LiveExactlyInUse | src/json.c:352-369 | what callers can reach from their references exists, and when no value contains itself nothing else does |
| Sharing.ReleasedExactly | src/json.c:352-359 | on any graph, cyclic ones too: a value exists after a release if and only if it belongs to a set of values that callers or members of the set hold |
| Sharing.ObjectAddSafeExactly | src/json.c:309-329 | `json_object_add` still has its object after deleting the older entry if and only if the object is held without it; being reachable from the callers suffices, and without cycles is needed |
| Sharing.AddToUnheld | src/json.c:309-329 | an object held only through the value it replaces: the deletion inside `json_object_add` frees the object itself |
| Sharing.EmptyExactlyWhenAcyclic | src/json.c:352-359 | when callers have given everything back, the heap is empty if and only if no value contains itself |
| Sharing.LinkingKeepsAcyclic | src/json.c:228-240 | a new entry keeps the heap acyclic when the container is out of reach of the value added |
| Sharing.ReleasingKeepsAcyclic | src/json.c:352-359 | releasing never closes a cycle |
| Sharing.ReleasingKeepsTrees | src/json.c:352-359 | whoever can still get to a value sees the same tree after any releases |
| Sharing.ArrayAddDenotes | src/json.c:228-240 | through the heap, the array's tree is the old one with the value's tree appended |
| Sharing.ObjectAddDenotes | src/json.c:309-329 | through the heap, with sharing and the release of the old value, the object's tree becomes the map update `With` |
| Sharing.ArrayInItself | src/json.c:228-240 | an array put into itself survives when all caller references are given back |
| Equality.JsonEquals | src/json.c:371-475 | the loops compute the inclusion-and-length relation; for a tree without doubles in which no array holds two equal entries, they accept exactly the trees that are it with the entries of arrays and objects in another order |
| Equality.ArrayEquals | src/json.c:420-444 | the nested walk decides equal lengths and inclusion |
| Equality.ObjectEquals | src/json.c:446-475 | the walk decides equal sizes and agreement under every key |
| Equality.Reflexive | src/json.c:371-475 | every distinct-key tree equals itself |
| Equality.Transitive | src/json.c:371-475 | equality of double-free trees chains |
| Epsilon.TransitiveExact | src/json.c:371-475 | for trees of finite doubles: equality chains from a tree, whatever such trees it is compared with, if and only if every double in it is larger than 2^29 in magnitude |
| Epsilon.TransitiveAmongAll | src/json.c:404-410 | compared with all trees, whose doubles may be infinities or NaN, equality chains from a tree if and only if no double in it is a number, for NaN is equal to every double |
| Epsilon.FarAlone | src/json.c:404-410 | beyond 2^29 a double is equal to itself only |
| Equality.Symmetric | src/json.c:420-475 | with no two equal entries on the left, equality holds the other way round, by a pigeonhole argument at every level |
| Equality.Pigeonhole | src/json.c:420-444 | n different positions below n reach each of them: why inclusion with equal length is enough |
| Equality.TwinsHideAnything | src/json.c:420-444 | a tree with two equal entries in some array equals trees of any depth |
| Equality.SymmetricExact | src/json.c:371-475 | equality can be turned round at a tree, against every tree, if and only if none of its arrays holds two equal entries |
| Equality.RearrangedEqual | src/json.c:420-475 | any tree equals every tree got by permuting array entries and object entries at any depth |
| Equality.EqualRearranged | src/json.c:371-475 | and the other way round: where no array holds two equal entries, doubles left aside, an equal tree has the same strings, ints, booleans and nulls under the same keys, in some order |
| Messages.EvalCallType | src/json_rpc.c:635-666 | decides request, notification or invalid call |
| Messages.IsResponseSingle | src/json_rpc.c:593-633 | decides whether an object is a response |
| Messages.JsonRpcIsResponse | src/json_rpc.c:425-439 | decides whether a message is a response or an array of responses |
| Messages.GetId | src/json_rpc.c:563-591 | the id, or the array of ids of the elements that have one, or nothing |
| Messages.ReplyContents | src/json_rpc.c:336-351 | a reply exists exactly when there is an id, carries that id, and carries the result, or no result and the internal error code when the handler gave NULL |
| Messages.ErrorContents | src/json_rpc.c:492-547 | an error reply carries version, id and an error object with the code, and no result |
| Messages.RepliesAreResponses | src/json_rpc_tt.c:28-34 | every reply the server can build is read back as a response that names its request |
| Messages.CallsAreNotResponses | src/json_rpc_tt.c:28-34 | a message accepted as a call is taken for a response if and only if it also has a result or an error object |
| Messages.BatchesAreNotResponses | src/json_rpc.c:425-439 | a batch of plain calls is taken for a response if and only if it is empty |
| Entries.CallExactly | src/json_rpc.c:635-666 | an object is a call exactly when it has the entry "jsonrpc": "2.0", a string under "method", under "params" an array or an object if anything, under "id" a string or an int if anything; it is a notification without an id |
| Entries.OnlyObjectsCall | src/json_rpc.c:635-638 | nothing else is a call |
| Entries.BuiltCall | src/json_rpc.c:635-666 | which kind of call the message of any version, method, params and id is, each there or not |
| Entries.ResponseExactly | src/json_rpc.c:593-633 | an object is a response exactly when it has the entry "jsonrpc": "2.0", no array, object or double under "id", and a result, or an error object with a string under "message" and an int under "code" |
| Entries.ResponseBatch | src/json_rpc.c:425-439 | of all other values only arrays of such objects are responses |
| Entries.RepliesWritten | src/json_rpc.c:463-547 | the replies and refusals written out: their entries, in order, with texts and codes |
| Entries.IdsInOrder | src/json_rpc.c:563-591 | the ids of a batch are gathered in order |
| Entries.IdsOfOne | src/json_rpc.c:563-591 | each element gives the id it has, or nothing |
| Entries.IdExactly | src/json_rpc.c:563-591 | the id of an object is what stands under "id", that of a batch the array of its ids, if there are any; nothing else has one |
| Entries.CallQueued | src/json_rpc.c:229-257 | a call of a registered method queues the first handler of that name, with exactly those params and that id, and nothing else happens |
| Entries.CallNotFound | src/json_rpc.c:229-238 | a request for a method nobody registered queues the refusal under its id; a notification does nothing |
| Entries.InvalidQueued | src/json_rpc.c:240-248 | an object that is no call queues the refusal without an id |
| Entries.ForeignRefused | src/json_rpc.c:601-610 | an object without the version, or with an array, object or double for its id, is neither response nor call, and is refused |
| Entries.OthersAnswered | src/json_rpc.c:320-334 | the empty array and everything that is neither an array nor an object is answered at once with the refusal, and nothing is queued |
| Protocol.NextConserved | src/json_rpc.c:183-318 | everything that can happen keeps, for each live request: results in + queued results + queued or running calls = waiting count, with something under way; and `user_cb` at most once, never while the record lives |
| Protocol.AllLive | src/json_rpc.c:170-181 | no queued callback and no handler still to return refers to a freed record |
| Protocol.DeliversLast | src/json_rpc.c:259-278 | `user_cb` is called in one place only: when the last outstanding result comes in, and the record goes with it |
| Protocol.InitialConserved | src/json_rpc.c:95-105 | a new engine satisfies the invariant |
| Schedules.AnsweredOnce | src/json_rpc.c:265-306 | for every schedule, with other messages coming in: `user_cb` is called once if the record is gone, never if not; an empty queue means it was called; each handler asked for had exactly one turn, and what `user_cb` gets is, as a multiset, one reply per turn, with what that handler returned under the id of that very call, and one error reply per refused element |
| Schedules.OneAnswer | src/json_rpc.c:240-257 | an element is given to a handler or answered without one, never both; a notification is not answered at all |
| Schedules.DispatchSlots | src/json_rpc.c:229-257 | dispatching an element queues exactly the handler it asks for, under the snapshot of its id, or the answer it gets without one |
| Schedules.InitialGood | src/json_rpc.c:95-105 | a new engine is in a state from which the runs are described |
| Schedules.InvokeServed | src/json_rpc.c:170-181 | a handler that returns inside its callback puts its own result under the id its call was queued with in the place of that call, though all calls share one record |
| Schedules.StaysSilent | src/json_rpc.c:259-278 | once a request is gone nobody is called for it any more |
| Schedules.NotificationsUnanswered | src/json_rpc.c:300-315 | a notification, or a batch of nothing else, leaves no record and is never answered |
| Schedules.TurnWorks | src/json_rpc.c:170-201 | every callback decreases twice the queued calls plus the queued results |
| Schedules.Bounded | src/json_rpc.c:170-201 | with no new messages a schedule has at most as many callbacks as that measure, whatever the order |
| Batches.BatchInOrder | src/json_rpc.c:265-278 | over any messages, callbacks and returns, late ones too: a batch holds the replies of its results in the order in which these fired, and that is what `user_cb` is given |
| Batches.BatchStarts | src/json_rpc.c:280-306 | a batch that waits for something starts with no replies |
| LateReturns.CurrentId | src/json_rpc.c:170-201 | over any messages, callbacks and returns, the shared `method_id` is the one remembered with the last event of the record that fired |
| LateReturns.LateReturnExact | src/json_rpc.c:336-351 | a late return goes out under the id of its call if and only if no event of the record has fired since, or the last one that has was remembered with the same id |
| LateReturns.LoneCallMayBeLate | src/json_rpc.c:308-318 | a call outside a batch is answered under its own id however late its handler returns |
| LateReturns.LateReturnsShareId | src/json_rpc.c:170-201 | two handlers of one batch that return late both answer under the second call's id |
| LateReturns.LateReturnLost | src/json_rpc.c:336-351 | a late return after an invalid element's result finds no id, and its reply is missing |
| LateReturns.LateReturnExample | src/json_rpc.c:336-351 | a concrete batch of ids 1 and 2 for which both queued replies carry id 2 |
| References.BooksBalance | src/json_rpc.c:229-238 | over any messages, callbacks and returns, late ones too: each reference taken to an id has been used by a refusal, waits with its call in the queue, or was handed to a handler |
| References.UsedOnce | src/json_rpc.c:336-351 | for every schedule with handlers that return inside their callback: each reference taken has been used up exactly once, by a refusal or by the reply of a return, unless its call still waits |
| References.UsedUpExactly | src/json_rpc.c:336-351 | with no call of an id waiting, its references have been used up as often as they were taken if and only if handlers returned under the id as often as handlers were started with it |
| References.LateReturnsLeak | src/json_rpc.c:336-351 | in the run of `LateReturnExample` the reference to id 1 is never used up, and the one to id 2 is used up twice |
| Engine.JsonRpc.AddMethod | src/json_rpc.c:132-149 | a later registration of a name hides the earlier ones |
| Engine.JsonRpc.ProcessRequest | src/json_rpc.c:320-334 | refines the protocol's arrival of a message: single, batch, and the error for everything else |
| Engine.JsonRpc.ProcessSingleCall | src/json_rpc.c:308-318 | the loop-free case, record freed for a notification |
| Engine.JsonRpc.ProcessBatchedCall | src/json_rpc.c:280-306 | the dispatch loop with the growing waiting count refines the dispatch of all elements |
| Engine.JsonRpc.DeferredCallback | src/json_rpc.c:170-181 | restores the remembered id, then files a result or says which handler runs for which request |
| Engine.JsonRpc.ResultCallback | src/json_rpc.c:259-278 | counts and files the result; on the last one delivers and frees the record |
| Engine.JsonRpc.JsonRpcReturn | src/json_rpc.c:336-351 | queues the reply under the id the record holds at that moment |
| Engine.EventLoop | src/json_rpc.c:170-201 | the engine, driven by any schedule, does what the protocol says of that schedule, and stays in the states the runs start from |
| Client.PendingCalls.Preprocess | src/json_rpc.c:353-388 | registers the id or array of ids, or replaces the callback of an entry with an equal id |
| Client.RegisterKeeps | src/json_rpc.c:361-385 | without an entry with an equal id a new one is put in front of all the others; with one, no id changes and no callback but that of the first such entry |
| Client.PendingCalls.ProcessResponse | src/json_rpc.c:390-423 | calls and removes the first entry with an equal id, or does nothing |
| Client.RegisterSeparate | src/json_rpc.c:353-388 | pending calls stay apart, the request has exactly one entry, with its callback, and the entries with other ids are the same as before, in order |
| Client.ResponseFindsCall | src/json_rpc.c:390-423 | a response reaches the call with an equal id and no other, and only once |
| Client.OthersStay | src/json_rpc.c:415-422 | with the entry for an id removed, what is left are the entries with other ids, all of them, in order |
| Client.OthersIgnored | src/json_rpc.c:390-400 | what is no response, or has no id, calls and removes nothing |
| Client.UnmatchedResponseIgnored | src/json_rpc.c:409-413 | without an equal id nothing is called or removed |
| Client.ConfusedExactly | src/json_rpc.c:361-371 | a pending id can take the response to another pending request if and only if some array in it holds two equal entries |
| Client.DuplicateIdsConfuse | src/json_rpc.c:401-407 | a batch with ids 1 and 2 and then one with the id 1 twice are registered: the second takes the first one's response |
| Exchange.ReplyMatchesExactly | src/json_rpc.c:563-591 | for a batch with distinguishable ids, the ids of the right reply equal the registered ones if and only if every element refused as invalid carries the id null |
| Exchange.AnswerHasId | src/json_rpc.c:390-407 | the answer to a sendable request is a response whose id equals the request's, even permuted |
| Exchange.EndToEnd | src/json_rpc.c:353-423 | for any state the server reaches when handlers return inside their callbacks, and any schedule that empties the queue: the server answers a sendable request once, with what the handlers it asked for returned, each under its own id; that reply calls the client's entry for it, removes it and no other, and calls nothing a second time |
| Wire.Transmit | src/json_parser.rl:296-366 | printed arrays and objects arrive as they were, however the bytes are cut and whenever the buffer may be drained |
| Wire.DeliveredPrintable | src/json_rpc.c:463-547 | the reply to a printable request, with printable results, is itself printable, so it survives the way back |
| Wire.Send | src/json_rpc_tt.c:43-49 | a value printed by `json_to_string`, without an empty container in it, fits the bytes allocated and arrives as it was |
| Wire.Peer.Read | src/json_rpc_tt.c:28-34 | what looks like a response goes to the pending calls and to nothing else, everything else to the engine; an object without the version, or with an id of the wrong kind, leaves the pending calls alone and gets the invalid-request reply queued |
| Wire.SwallowedExactly | src/json_rpc_tt.c:28-34 | a sendable request is taken for a response if and only if each of its elements has a result or an error object |
| Wire.SwallowedRequest | src/json_rpc_tt.c:28-34 | a sendable request that is taken for one |
| Wire.Conversation | src/json_rpc_tt.c:28-49 | printer, parser, routing, engine and client together, for requests and results without empty containers: request and reply cross two connections as bytes; the server answers if and only if the request does not look like a response; then the client's entry is called, with the right answers, and removed, and all other pending calls are left, in order; otherwise the entry stays, the server's engine does nothing, and the server's own pending calls take the request for a response |

## Left out

- Escape decoding (`src/string_functions.c:56-107`): the parser's strings and keys keep the bytes of their token, escapes included. Decoding appends with `strcat` to a buffer that is not terminated, so there is no function of the input to model; the printer never escapes.
- Parsing.ParseExact: the tree holds undecoded escapes, for that reason.
- Parsing.StreamExact: the same.
- Sessions.JsonParserParse: the same.
- Sessions.Stream: the same.
- Conversions.InterpretateEscSeq: the copy loop is proved the identity on escape-free token texts; texts with a backslash are not covered, for that reason.
- Conversions.Atoi, Conversions.ToInt: overflow follows `(int)strtol` with a 64-bit long, where the C standard leaves `atoi` undefined.
- Conversions.Atof, Conversions.DoubleText: doubles are rounded as IEEE 754 doubles are, but zero has no sign, and the infinities and the one NaN are powers of two above all doubles. The rounding mode is to nearest, the locale "C". `%f` keeps six digits, so doubles are excluded from the round trip. Hexadecimal texts, which only a stale offset can meet, are converted by the model, but nothing is stated about their value.
- Printing.Buffer.Print: the 50-byte buffer in which one number is printed is not modelled; a double of 10^42 and above does not fit.
- Epsilon.TransitiveExact: stated for trees of finite doubles; `Epsilon.TransitiveAmongAll` is about all others too.
- Draining.StaleText: compares the bytes of the token; when there is an escape in them nothing is said of the decoded strings.
- Printing.ParseUndoesPrint: only for trees without doubles and without backslashes, for the two reasons above.
- Draining.StaleToken: when the drain took more bytes than the token has in the end, the program computes a negative length; nothing is said about that.
- Nesting deeper than `STACK_SIZE` (1024): the machine's stack is unbounded.
- Parser.JsonParser: `cur_obj` and its parents are values; a child is written back into its parent when it is closed, which stands for the pointer the parent holds all along. Reference counts are modelled in `Store` only.
- Store.JsonStore: the walks over the linked list are in `Containers`; here an entry is found by its position. Memory is a sequence of cells and no address is used twice.
- Store.JsonStore.ObjectAdd: needs the object to survive the deletion of the older entry, exactly the condition of `Sharing.ObjectAddSafeExactly`; otherwise the program uses freed memory.
- Sharing.ObjectAddDenotes: needs the object out of reach of its own entries and of the value added, that is, no cycle through it.
- Protocol.Server: a request record is an entry of a map and every record gets a number of its own; freed records leave the map. Which handler returns what, and when, is chosen freely by the schedule.
- Wire.Conversation: needs request and results without empty containers, for otherwise `json_to_string` writes past the bytes it allocated (`Printing.JsonToString`).
- References: counts references to an id by its value; two elements with equal ids are not told apart.
- Schedules.AnsweredOnce: handlers return exactly once, inside their own callback; what happens otherwise is in `LateReturns`, and conservation holds for late returns as well.
- Failed allocations, and with them the `-1` and `NULL` results and `JSON_INTERNAL_ERROR`; a failing `event_once`.
- The transports (`json_rpc_tt*.c`), libevent, web sockets, HTTP, logging and `main.c`.
- `json_rpc_del_method`, which frees the engine; `json_rpc_free`, `json_parser_destroy`, `json_parser_free`.
- Calling the parser again from inside its own callback.
- The tables Ragel generates: the machine is written from the `.rl` sources, and `json_parser.c` is not part of this model.
- The parts of src/list.h that only combine those modelled (`list_move`, `list_del_init`, `list_splice_init`, the backward walks).
- RFC 8259 as a whole: the grammar is the one in `src/json.rl`, with spaces as its only white space.
