# A verified model of the Ithildin IRC daemon

Ithildin is a framework for network daemons, in C, with an IRC server as its largest module. This project models
the eight components of it that keep state, and proves what each of them promises: the codec for compressed DNS
names, streaming MD5, the timer queue, the tree of IRC servers with everything that is sent along it, the resolver's
queues, the module system, the hash table with the nickname history on top of it, and two text algorithms.

The code of these components works by changing things in place, and so does the model. Lists, queues and
buffers are fields of classes, methods change them as the C functions do, and each method is specified by functions
and predicates on values. What the component is for is then proved of those functions, for every input, every run
and every reachable state. A linked list is a sequence field, a buffer an array, a pointer into a buffer an index.

| file | models |
|---|---|
| `DnsNames`, `DnsExpand`, `DnsCompress`, `DnsWriter`, `DnsRoundTrip` | `modules/dns/res_comp.c`, against section 4.1.4 of RFC 1035 |
| `Md5Spec`, `Md5`, `Md5Vectors` | `source/md5.c`, against sections 3.1 to 3.5 and A.5 of RFC 1321 |
| `TimerQueue` | `source/timer.c` |
| `ServerTree`, `Burst`, `FanOut`, `SendQueue` | `modules/ircd/server.c`, `send.c`, `connection.c` |
| `Resolver` | `modules/dns/lookup.c`, `packet.c`, `dns.c` |
| `ModuleUnload`, `Mdext` | `source/module.c` |
| `HashTable`, `NickHistory` | `source/hash.c`, `modules/ircd/client.c` |
| `Glob`, `BaseCodec` | `source/string.c` |
| `Common` | sequences and division, shared by the others |

`dafny verify dfyconfig.toml` checks everything.

## Where the code is not what it says

Some properties the comments or the design suggest are false of the code. The code is modelled as it is, and the
exact condition is proved.

- `dn_comp` accepts up to two dots after a name, where its comment says one (`DnsRoundTrip.TrailingDotsExactly`).
- `dn_expand` does not escape backslashes, so text does not always come back (`DnsNames.TextRoundTripExactly`).
- `dn_comp` forgets to drop the table entries it added when there is no room for the closing pointer
  (`DnsWriter.DnComp`). That breaks the table whenever it added any (`DnsCompress.LeakBreaksTable`), for instance
  `a.b` in a message that holds `b` (`DnsCompress.LeakedEntry`), and the next call may then write a pointer to itself
  (`DnsCompress.LeakedPointer`). Names that fail in any other way do no harm (`DnsCompress.EveryNameReadsBack`).
- `create_timer` hands out the reserved reference exactly when it is the next free one after a roll-over
  (`TimerQueue.InvalidExactly`).
- The client iterator skips every object after a pass over an empty list (`Mdext.ClientIterator.Pass`).
- The growth threshold of the hash table wraps in 32 bits, so growth is safe exactly up to 2^28 buckets
  (`HashTable.GrowthIsSafeExactly`), and fewer than 128 elements give 64 buckets, not the 128 the comment promises
  (`HashTable.RoundSize`).
- A reply that asks to try again uses no retry, and its question is not compared with the lookup. So any pending
  lookup, as one for an address, is sent once more after a reply with its id, NXDOMAIN and a pointer question in
  `ip6.arpa` (`Resolver.ReplySendsAgain`). The send cuts its wait short: the running timer is replaced by a full new
  one. Neither the sends nor the waits of a lookup have a bound (`Resolver.NoBound`); with no retries and a timeout,
  one such reply breaks both limits (`Resolver.SecondSendTooMany`). Exactly:
  - Lookups are sent at most retries + 1 times if and only if such replies, while pending, are no more than the timers
    that ran out while waiting and the tries left. That holds of all lookups but IPv6 pointers if replies echo the
    query; IPv6 pointers are then sent at most twice for each try, and once more for each second try that could not be
    written and is forgotten (`Resolver.SendsExactly`).
  - The waits of a lookup, on its last try, keep to the timeout times 2^(retries + 1) - 1 if and only if none was cut
    short. With a timeout, none was if and only if such replies, while pending, are no more than the timers that ran
    out, or still run, while waiting. That too holds of all lookups but IPv6 pointers if replies echo the query; the
    waits of an IPv6 pointer may then come to twice that, and those before its forgotten second tries
    (`Resolver.TotalWait`).
- Cancelling a callback takes one hook off each lookup, and every connection hooks the same function
  (modules/ircd/connection.c:229, 282), so a lookup keeps the callback if and only if it was hooked at least twice
  (`Resolver.UnhookedExactly`).
- `exec_timers` leaves a turn that falls due on this very second for the next pass, instead of taking it at once,
  exactly if no timer due again has a due timer behind it, as when it is alone (`TimerQueue.TurnsExactly`, for
  callbacks that destroy no timer).
- `exec_timers` goes on with a timer that is gone exactly if a callback destroys its own timer or the one then next in
  the list (`TimerQueue.Queue.Exec`, `TimerQueue.DestroyNext`). The resolver's callback (modules/dns/dns.c:56-86)
  destroys another timer when it fails a lookup and the cache is full (`Resolver.ExpiryFreesAnother`).
- `sendto_common_channels` follows a null pointer exactly for a pseudo-client of ours on no channel, such as the
  services' clients (modules/services/conf.c:95-152) when modules/ircd/commands/svsnick.c:59 renames one
  (`FanOut.Sends.SendToCommonChannels`).
- The glob matcher follows at most eleven groups, a group being a character straight after a run of wildcards that
  has a star in it (`Glob.Matcher.Match`); the case table never matches the two cases of H, J and T
  (`Glob.SameCharacter`).
- The two decoding tables lack a comma each, so byte 255 decodes as digit 0, and no other byte outside the alphabet is
  a digit (`BaseCodec.StrayDigit`), and `w` below base 64 and byte 129 in base 64 pass for separators
  (`BaseCodec.StraySeparator`); and decoding
  what was encoded gives one byte too many exactly when the bytes do not fill whole digits (`BaseCodec.RoundTrip`).
- The test for another MD5 block is right wherever the loop gets to, exactly if the buffer was empty or its bytes and
  the chunk are fewer than 2^32 (`Md5.LoopTestExactly`); for any other chunk it wraps and a block is taken from beyond
  its end (`Md5.TestWraps`).

## Model

| member | source | states |
|---|---|---|
| DnsNames.PointerRoundTrip | modules/dns/res_comp.c:127-128 | a pointer's two bytes, written and read, give back every offset below 0x4000 |
| DnsNames.ChaseLabelSizes | modules/dns/res_comp.c:46-86 | in any packet whatever, every label the reader returns has 1 to 63 bytes |
| DnsNames.LoopCheckIsSafe | modules/dns/res_comp.c:46-86 | with the counter at the number of bytes visited so far, the reader follows any walk that visits no further byte twice |
| DnsNames.LoopCheckNeverRejectsDistinctWalk | modules/dns/res_comp.c:76-80 | from a clean start the loop check never rejects a walk that visits no byte twice |
| DnsNames.NameIsDistinctWalk | modules/dns/res_comp.c:123-130 | a name whose pointers all lead backwards, as every written one's do, is such a walk |
| DnsNames.NameStable | modules/dns/res_comp.c:101-174 | bytes written after a name do not change what it reads as |
| DnsNames.NameInLaterRun | modules/dns/res_comp.c:204-243 | a suffix of a name is a name of its own, with the same labels |
| DnsNames.ParsePrinted | modules/dns/res_comp.c:35-91 | parsing the printed form of labels without backslashes gives the labels |
| DnsNames.TextRoundTripExactly | modules/dns/res_comp.c:58-68 | printing and parsing gives the labels back if and only if no label has a backslash |
| DnsExpand.DnExpand | modules/dns/res_comp.c:35-91 | succeeds exactly when the walk does and the text with its NUL fits; writes that text and nothing past the bound; terminates on every byte string, loops included; its size is that of the skipper |
| DnsExpand.DnSkipname | modules/dns/res_comp.c:178-197 | finds the end of the encoding at a position, or fails exactly when there is none |
| DnsExpand.CopyLabel | modules/dns/res_comp.c:58-67 | one label is copied with its dots escaped, or the bound or the end of the message stops it exactly when it must |
| DnsExpand.AppendLabel | modules/dns/res_comp.c:49-68 | the dot before it included |
| DnsCompress.MatchIsSound | modules/dns/res_comp.c:204-243 | text that the search matches against a stored name parses to that name's labels |
| DnsCompress.MatchIsComplete | modules/dns/res_comp.c:204-243 | the printed form of a stored name without backslashes is found |
| DnsCompress.FindFirstIsSound | modules/dns/res_comp.c:204-243 | the offset found is one whose name is exactly the text searched for |
| DnsCompress.WireExactlyWhenParsed | modules/dns/res_comp.c:101-174 | there is an encoding if and only if the text is a valid name |
| DnsCompress.KnownSuffixIsPointer | modules/dns/res_comp.c:118-129 | a name with a suffix in the table takes the labels before it and two bytes at most |
| DnsCompress.WireDenotesName | modules/dns/res_comp.c:101-174 | the encoding, labels and suffix pointer together, reads as the labels of the text |
| DnsCompress.StartsDenoteNames | modules/dns/res_comp.c:131-135 | every offset offered to the table starts a name |
| DnsCompress.TableKept | modules/dns/res_comp.c:131-135 | writing a name keeps the table right: all its entries start names below the end of the message |
| DnsCompress.LeakBreaksTable | modules/dns/res_comp.c:122-136 | the entries of a name that was not written make the table unusable, whichever they are; without any it stays usable |
| DnsCompress.LeakedEntry | modules/dns/res_comp.c:125-126 | a message, a name and a room for which such entries stay |
| DnsCompress.LeakedPointer | modules/dns/res_comp.c:124-130 | with them, a later call can find the bytes left behind and write a pointer to itself |
| DnsCompress.BuildDenotes | modules/dns/res_comp.c:101-174 | every name of a message under construction keeps its meaning while more is written |
| DnsCompress.EveryNameReadsBack | modules/dns/res_comp.c:35-91 | in any message of names, each with any room, and other bytes, with one shared table, the reader gives each written name's own labels at its offset, whatever other names were invalid or had no room, as long as none leaves entries behind |
| DnsWriter.MatchEntry | modules/dns/res_comp.c:204-243 | comparing text with a stored name in place decides whether they are the same name |
| DnsWriter.MatchOneLabel | modules/dns/res_comp.c:216-229 | comparing text with one stored label in place decides whether the label comes next in it |
| DnsWriter.DnFind | modules/dns/res_comp.c:204-243 | gives the first entry of the table that matches, or fails if none does |
| DnsWriter.CopyTextLabel | modules/dns/res_comp.c:137-153 | writes the next label of the text with its escapes resolved, within the bound |
| DnsWriter.WriteLabel | modules/dns/res_comp.c:137-165 | the label with its length byte, or failure exactly when it is empty, too long or does not fit |
| DnsWriter.DnComp | modules/dns/res_comp.c:101-174 | succeeds exactly when the text is valid and its encoding fits; writes that encoding and nothing else; restores the table on failure, except when there is no room for the pointer |
| DnsRoundTrip.CompressThenExpand | modules/dns/res_comp.c:35-174 | compressing and expanding gives the printed form of every name, and the very text if it was in that form |
| DnsRoundTrip.ExpandThenCompress | modules/dns/res_comp.c:35-174 | for any packet whatever, the writer reads the reader's text, cut at its first NUL as C cuts it, as the very labels of the name if and only if no label has a backslash or a NUL |
| DnsRoundTrip.TrailingDotsExactly | modules/dns/res_comp.c:155-159 | up to two dots after a complete name are accepted and change nothing; a third is an error |
| DnsRoundTrip.ReadsExample | modules/dns/res_comp.c:35-92 | the four names of the example in section 4.1.4 of RFC 1035 are read, and the first printed, as it says |
| Md5Spec.PaddedIsWhole | source/md5.c:170-184 | the padding of sections 3.1 and 3.2 fills whole blocks with the fewest zeros |
| Md5Spec.FBitByBit | source/md5.c:81 | as section 3.4 says of each bit: if x then y else z |
| Md5Spec.GBitByBit | source/md5.c:82 | if z then x else y |
| Md5Spec.HBitByBit | source/md5.c:83 | the parity of the three |
| Md5Spec.IBitByBit | source/md5.c:84 | y, turned over exactly where x is 1 or z is 0 |
| Md5Spec.RotatedIsCircular | source/md5.c:86-87 | the shifts used for each of the sixteen amounts are rotations |
| Md5Spec.WordOfBytes | source/md5.c:47-71 | decoding undoes encoding |
| Md5.AllBytesOfWords | source/md5.c:47-71 | encoding undoes decoding, for any whole number of words |
| Md5.Decode | source/md5.c:64-71 | the loop gives the words of section 3.4, low-order byte first |
| Md5.Encode | source/md5.c:47-57 | the loop gives the bytes of the words, low-order byte first |
| Md5.Round1 | source/md5.c:209-229 | the sixteen unrolled steps are steps 1 to 16 of section 3.4 |
| Md5.Round2 | source/md5.c:231-252 | the same for steps 17 to 32 |
| Md5.Round3 | source/md5.c:254-273 | the same for steps 33 to 48 |
| Md5.Round4 | source/md5.c:275-295 | the same for steps 49 to 64 |
| Md5.Transform | source/md5.c:204-304 | the state in place becomes the block function of section 3.4 of it |
| Md5.CountedUp | source/md5.c:139-143 | adding in two words with a carry is adding modulo 2^64 |
| Md5.LoopTestExactly | source/md5.c:137-153 | the test for another block is right at every index the loop can be at if and only if the buffer was empty or its bytes and the chunk are fewer than 2^32 |
| Md5.TestWraps | source/md5.c:153-154 | for any other chunk it wraps at the index 2^32 less the bytes in the buffer, and a block is taken from beyond the chunk |
| Md5.Context.Count | source/md5.c:139-143 | both words of the count stand for 8 times the bytes so far modulo 2^64 |
| Md5.Context.Complete | source/md5.c:148-151 | the block completed in the buffer is taken in after the whole blocks before it |
| Md5.Context.Absorb | source/md5.c:153-154 | every whole block of a chunk is taken in, and less than one is left |
| Md5.Context.Update | source/md5.c:132-164 | the context stands for the bytes so far and the new ones, for every chunk whose loop test is right: state, buffer and bit count |
| Md5.Context.Pad | source/md5.c:170-184 | the context stands for the padded message, with the length before padding |
| Md5.Context.Final | source/md5.c:191-200 | gives the digest of all bytes added, and leaves a context of zeros |
| Md5.DigestOf | source/md5.c:324-343 | however a message is cut into such chunks, the digest is the one-shot digest of RFC 1321 |
| Md5Vectors.OfNothing | source/md5.c:204-304 | the digest of the empty message is the one section A.5 lists |
| Md5Vectors.OfLettersAndDigits | source/md5.c:204-304 | so is that of the 62 letters and digits, two blocks, no two words of the first alike |
| TimerQueue.InsertKeepsOrder | source/timer.c:151-170 | insertion keeps the list sorted and puts a timer behind those due at the same time |
| TimerQueue.Queue.InsertTimer | source/timer.c:151-170 | the loop inserts at that place |
| TimerQueue.Queue.FindTimer | source/timer.c:71-80 | finds the timer with a reference, if it is in the list |
| TimerQueue.Queue.NextFreeRef | source/timer.c:42-44 | the first free reference from the counter on |
| TimerQueue.Queue.NextRef | source/timer.c:39-53 | the reference is free; it is the reserved one exactly when that is next after a roll-over |
| TimerQueue.TriedBound | source/timer.c:42-44 | the search for a free reference tries no more references than are taken, so it ends |
| TimerQueue.InvalidExactly | source/timer.c:39-44 | after a roll-over the reserved reference is handed out if and only if it is the next free one |
| TimerQueue.Queue.Create | source/timer.c:35-67 | adds one timer under a fresh reference and starts its account |
| TimerQueue.Queue.Destroy | source/timer.c:85-93 | removes exactly that timer; an unknown reference changes nothing |
| TimerQueue.Queue.Adjust | source/timer.c:98-109 | gives that timer new terms and its place for them |
| TimerQueue.Queue.ExpireHead | source/timer.c:124-125 | a timer with no repetition left leaves the list |
| TimerQueue.Queue.RearmHead | source/timer.c:126-131 | any other goes back in one interval after its time, or one after the pass if it fell behind by more |
| TimerQueue.Queue.FireHead | source/timer.c:120-131 | one firing, with the callback before it |
| TimerQueue.Queue.Exec | source/timer.c:113-147 | ends; goes on with a timer that is gone if and only if a callback destroys its own timer or the one then next in the list; otherwise leaves no timer overdue and gives the time to the next one; each firing is of the first of the due timers that are left, and every timer of the list that fired n times is due n intervals after its time, or n after the pass if that came more than an interval late, or is gone after its last turn, or destroyed; timers made by callbacks have not fired; without a timer destroyed the firings, in order, are exactly those of `Firings`, and each timer fires as often as `Turns` says |
| TimerQueue.AfterTurnsIsLater | source/timer.c:124-128 | firing n times, one after the other, brings a timer to that time, with n repetitions fewer, or to its end |
| TimerQueue.AllOnSchedule | source/timer.c:113-147 | so of every timer that was in the list before a pass |
| TimerQueue.NoDrift | source/timer.c:127-128 | in any run, the next firing of a timer is due its start and one interval for each firing and one more, if and only if no time was lost to a pass more than an interval late |
| TimerQueue.TurnsWithin | source/timer.c:113-147 | whatever callbacks destroy, every due timer they spare fires, once if it was due on this second and at most twice if it was overdue; no other fires |
| TimerQueue.UndisturbedRun | source/timer.c:113-147 | if they destroy none, the firings one by one are those of the closed form |
| TimerQueue.DestroyNext | source/timer.c:118-138 | an input for the other case: the first of two timers is due and its callback destroys the second |
| TimerQueue.TurnsExactly | source/timer.c:113-147 | a due timer fires twice if and only if it is due again on this second and some such timer has a due timer behind it |
| TimerQueue.FiringsStep | source/timer.c:117-139 | the firings are what one step at a time gives: the first due timer fires, goes back in behind the due ones if due again, and the pass ends if no other was due |
| TimerQueue.DueShrinks | source/timer.c:113-147 | each firing makes the overdue timers fewer, or the due ones with no more overdue |
| TimerQueue.TrackFire | source/timer.c:113-147 | one firing keeps the account of every timer of the pass |
| TimerQueue.CursorMoves | source/timer.c:118-139 | if it is not destroyed, the timer saved before a firing is the next of the pass, or past the due ones exactly when the pass is over |
| TimerQueue.PassEnd | source/timer.c:113-147 | when the cursor stops, no due timer is left to fire, and nothing is overdue |
| ModuleUnload.MidwayCall | source/module.c:415-426 | a nested unload of a dependant keeps what is known of the outer one, whatever it unloaded |
| ModuleUnload.MidwayEnd | source/module.c:457-471 | at the end the modules unloaded are those reachable through loaded dependants, and no list mentions one |
| ModuleUnload.Nested | source/module.c:415-426 | the same for the whole state: flags, handles, lists and events |
| ModuleUnload.Finish | source/module.c:428-476 | after the closing sweep the whole effect is the one promised |
| ModuleUnload.NestedOrder | source/module.c:400-429 | what a nested unload takes out comes after what is out already, and in the right order |
| ModuleUnload.LastInOrder | source/module.c:431-449 | the module itself comes last, as all that was unloaded is reachable from it |
| ModuleUnload.Registry.UnloadModule | source/module.c:379-476 | ends on any graph; unloads exactly the modules reachable from the named one, each once, and each after its loaded dependants but those it is reachable from in turn; leaves every other flag alone; no dependants list mentions an unloaded module |
| ModuleUnload.Registry.SweepEntries | source/module.c:457-471 | takes a module out of every dependants list |
| ModuleUnload.Registry.DropEntries | source/module.c:461-469 | the loop takes every entry for the module out of one list, in place |
| ModuleUnload.Registry.CloseLibrary | source/module.c:431-449 | after the event the library is closed as often as it was opened |
| ModuleUnload.Registry.FindModule | source/module.c:351-360 | finds the module of that name, if there is one |
| Mdext.Header.CreateItem | source/module.c:731-752 | the slots tile the block; the new one is zeroed in every object and no other byte changes |
| Mdext.Header.DestroyItem | source/module.c:756-799 | the slots tile the block again, and every surviving slot keeps its bytes in every object at its new offset |
| Mdext.Header.TilesExactly | source/module.c:731-799 | every byte of a block lies in exactly one slot |
| Mdext.CutKeepsSlots | source/module.c:780-790 | cutting a slot's bytes out of a block leaves every other slot's bytes at its lowered offset |
| Mdext.Shifted | source/module.c:792-797 | lowering the offsets above the cut gives the offsets of the tiling without the slot |
| Mdext.Header.CutBlocks | source/module.c:782-790 | the two passes take the slot's bytes out of every block |
| Mdext.Header.RemoveAt | source/module.c:792-797 | the item leaves the list and the offsets above it fall by its size |
| Mdext.Header.Alloc | source/module.c:804-813 | a new object gets a zeroed block of the current size |
| Mdext.ClientIterator.Pass | modules/ircd/client.c:616-633 | a pass visits every object once from a clean state, and none after a pass over no objects |
| Mdext.ClientIterator.Next | modules/ircd/client.c:616-633 | one step of the iterator and its static flag |
| ServerTree.ChildrenComeFirst | modules/ircd/server.c:280-303 | in a list where each server's parent is later, what precedes a point has no child after it |
| ServerTree.Ircd.Register | modules/ircd/server.c:280-303 | inserting at the head keeps every parent later in the list; the counts rise and stay in step with it |
| ServerTree.PartialChild | modules/ircd/server.c:63-69 | a nested split adds the child's whole subtree to what is gone |
| ServerTree.LoggedMore | modules/ircd/server.c:63-69 | the events of a nested split keep that order behind those of the splits before it |
| ServerTree.SplitBehind | modules/ircd/server.c:63-69 | a split removes nothing behind the server in the list |
| ServerTree.NoChildLeft | modules/ircd/server.c:63-69 | the loop leaves no child before its place, and its saved next server is never one the nested split freed |
| ServerTree.Ircd.DestroyServer | modules/ircd/server.c:49-129 | removes exactly the subtree of the server and the clients on it, lowers the counts by as many, closes exactly their links, with one event each, the named server's last and marked as the first; once a server's SQUIT is out, nothing follows about it, its clients, its children or theirs; the counters stay in step with the list |
| ServerTree.SplitInStep | modules/ircd/server.c:95-97 | a split takes off the counters of servers and of local ones exactly what it takes off the list |
| ServerTree.Ircd.DestroyUnregistered | modules/ircd/server.c:118-128 | an unregistered server only loses its link |
| ServerTree.Ircd.DestroyClientsOn | modules/ircd/server.c:71-93 | removes exactly the clients on a server, with one quit each for the registered ones |
| ServerTree.Ircd.DestroyChildren | modules/ircd/server.c:63-69 | the loop removes the whole subtrees of all children and leaves none |
| ServerTree.Ircd.RemoveSelf | modules/ircd/server.c:71-116 | a server without children goes with its clients, one squit after their quits, and the counts |
| Burst.Establish.SendNicks | modules/ircd/server.c:309-335 | introduces each server below but the target's subtree once and after its parent, and each registered client on them once and after its server; ends because children come earlier |
| Burst.Establish.SendClients | modules/ircd/server.c:324-328 | each registered client of one server is introduced once |
| Burst.Establish.ServerEstablish | modules/ircd/server.c:230-275 | the first call introduces every server outside the new server's side once and after its parent, and each registered client on them and on us once and after its server, with the limit on its queue lifted; the third puts the limit back; calls after that do nothing |
| Burst.ReachesAllButTarget | modules/ircd/server.c:309-335 | from our own server that is every server outside the target's subtree |
| Burst.BelowChild | modules/ircd/server.c:331-334 | what is sent below one child is new and is all there is below it |
| SendQueue.Sender.Push | modules/ircd/send.c:56-67 | the item joins the queue, the counts and the stream rise with it |
| SendQueue.Sender.Pop | modules/ircd/send.c:71-84 | the item leaves the queue and the block loses a reference; it is freed exactly when no queue holds it |
| SendQueue.Sender.CreateBlock | modules/ircd/send.c:40-50 | a block of its own with no references |
| SendQueue.Sender.Close | modules/ircd/connection.c:86-88 | a closed connection holds no item, and exactly the blocks it alone held are freed |
| SendQueue.Sender.WriteHead | modules/ircd/connection.c:131-144 | offers the socket what is left of the first item; any short or failed write keeps bytes written and bytes queued equal to bytes enqueued; the item goes if and only if it was taken whole |
| SendQueue.Sender.Flush | modules/ircd/connection.c:124-154 | if writeable, offers the items in order, one write each, until none is left or a write failed or was short; written is exactly what the writes took; the connection closes exactly when it is to; of the blocks of the items that left the queue, exactly those no queue holds any more are freed; a socket that takes every item whole gets everything queued |
| SendQueue.AllTaken | modules/ircd/connection.c:131-144 | what writes that take all take is the queue up to there |
| SendQueue.Sender.Settle | modules/ircd/connection.c:146-153 | the limit comes back into force with an empty queue, and closes the connection of a longer one |
| SendQueue.CountUpdate | modules/ircd/send.c:56-84 | changing one queue changes a block's count by its occurrences there |
| FanOut.HubIsOurs | modules/ircd/send.c:112-128 | climbing the parents ends at a server linked to us, above the one asked about |
| FanOut.HubSubtree | modules/ircd/send.c:112-128 | that link's subtree holds the server |
| FanOut.Sends.SrvUplink | modules/ircd/send.c:112-128 | the search ends on the tree and gives that link |
| FanOut.Sends.ClientUplink | modules/ircd/send.c:93-101 | a local client's own link, else its server's |
| FanOut.Sends.SendOnce | modules/ircd/send.c:409-424 | one copy on an unmarked link, which is then marked |
| FanOut.Sends.Clear | modules/ircd/send.c:142-148 | no mark is left |
| FanOut.UplinksAre | modules/ircd/send.c:393-428 | the uplinks of a channel's members but one are exactly the links some member is behind |
| FanOut.Sends.SendToChannelButOne | modules/ircd/send.c:393-428 | exactly one copy on each distinct uplink of the members except one's own; nothing on any other; all marks cleared |
| FanOut.Sends.SendToCommonChannels | modules/ircd/send.c:489-540 | exactly one copy on each unmarked local link that shares a channel, or its own copy for a client on none; all marks cleared; the null pointer is followed exactly for a pseudo-client of ours on no channel |
| HashTable.GrowthIsSafeExactly | source/hash.c:338-339 | refilling a doubled table cannot make it grow again if and only if it had at most 2^28 buckets |
| HashTable.RoundSize | source/hash.c:35-59 | a power of two at most the size asked for and more than half of it, or 64 below 128; refused above 2^31 |
| HashTable.ChainRemove | source/hash.c:345-366 | removing an entry from the history removes it from its bucket alone |
| HashTable.ChainOfChain | source/hash.c:118-127 | the entries of a bucket of the doubled table come, in order, from one old bucket |
| HashTable.FlattenKeepsAll | source/hash.c:118-127 | what a refill inserts is every entry, as often as it was there |
| HashTable.Refiled | source/hash.c:101-129 | a refilled table holds the entries in its buckets as if inserted in the original order |
| HashTable.Table.Insert | source/hash.c:272-342 | the entry joins the table; entries stay below 1.2 times the buckets; the table doubles exactly when full, never inside a refill |
| HashTable.Table.Drain | source/hash.c:121-126 | one old bucket goes into the new table, in order |
| HashTable.Table.Refill | source/hash.c:118-127 | all old buckets go into the new table, with no nested resize |
| HashTable.Table.Resize | source/hash.c:101-129 | twice the buckets, the same entries, in the same order for tail insertion |
| HashTable.Table.Delete | source/hash.c:345-366 | removes the entry itself, once, if it is there |
| HashTable.Table.Find | source/hash.c:372-386 | finds a matching entry if and only if there is one, for any comparison that respects the hash; the oldest for tail insertion |
| HashTable.Table.Found | source/hash.c:372-386 | the first match in a bucket is the oldest match in the table |
| NickHistory.DropKeepsAgree | modules/ircd/client.c:576-593 | removing any entries, and the clients kept only for them, keeps list, index and pointers one to one |
| NickHistory.AddKeepsAgree | modules/ircd/client.c:558-569 | so does adding one for a client without one and a nickname without one |
| NickHistory.FreedExactly | modules/ircd/client.c:585-592 | a signed-off client is freed exactly when its entry goes; any other loses only its pointer |
| NickHistory.GrowthWithinBounds | modules/ircd/client.c:544-556 | the history grows only while smaller than the client table, so it never exceeds the larger of its first size and that table |
| NickHistory.DroppedInTurn | modules/ircd/client.c:533-556 | the three removals in turn remove the client's own entry, the one with an equal nickname and, if full, the oldest of the rest |
| NickHistory.OldestGoes | modules/ircd/client.c:544-556 | the same of any history: of the entries with neither that client nor that nickname only the oldest goes, and only from a full table |
| NickHistory.History.RemoveHistory | modules/ircd/client.c:576-593 | exactly that entry goes, and the client if it was kept for it |
| NickHistory.History.FindHistory | modules/ircd/client.h:172-173 | finds the entry with an equal nickname if and only if there is one |
| NickHistory.History.Evict | modules/ircd/client.c:544-556 | a full table that may not grow loses its oldest entry |
| NickHistory.History.MakeRoom | modules/ircd/client.c:533-556 | exactly the entries displaced by a new one go |
| NickHistory.History.AddHistory | modules/ircd/client.c:530-572 | the new entry is first; only the entries above are displaced; no two entries have equal nicknames; while the clock does not go back the list is in order of time, and what a full table loses is as old as any entry that stays |
| NickHistory.History.ChangeNick | modules/ircd/client.c:145-171 | a new spelling changes nothing else; another nickname moves the client in the client table and records the old one if it is registered |
| NickHistory.History.Destroy | modules/ircd/client.c:51-139 | a registered client stays as a record with its entry, any other is freed; both leave the client table |
| NickHistory.History.CreateClient | modules/ircd/client.c:21-46 | a new client has no nickname and no entry |
| NickHistory.History.FindClient | modules/ircd/client.c:173-179 | a registered client that is on line under that nickname; none if no client has it or one that is not registered does |
| NickHistory.History.GetHistory | modules/ircd/client.c:598-614 | a client that is on line, by its nickname or one it gave up since the limit; none if there is neither |
| Resolver.RetryTimes | modules/dns/dns.c:159-168 | the table holds the timeout doubled once for each retry used |
| Resolver.TotalWait | modules/dns/dns.c:56-86 | all waits of a lookup are those that ran out, those that a new send cut short, and the running one; without those cut short they are at most the timeout times 2^(retries + 1) - 1, and on the last try exactly then; with a timeout none is cut short if and only if the replies to try again that met it pending are no more than the timers that ran out, or still run, while it waits; if replies echo, none is but for IPv6 pointers, whose waits cut short are at most as much again, and those before the second tries they lost |
| Resolver.SendsExactly | modules/dns/packet.c:26-148 | the sends are the retries used, and the pending one, and the replies to try again that met it pending, less the timers that ran out while it waited; so when they are at most retries + 1, which is always so without stray replies but for IPv6 pointers |
| Resolver.ReplySendsAgain | modules/dns/packet.c:253-264 | one such reply has any pending lookup sent again with no retry used and its timer replaced by a full new one |
| Resolver.NoBound | modules/dns/packet.c:253-264 | any number of such replies adds as many sends, and as many whole waits, to any pending lookup |
| Resolver.SecondSendTooMany | modules/dns/packet.c:136-145 | with no retries one such reply makes the sends more than retries + 1 and the waits longer than the bound |
| Resolver.ArpaEchoes | modules/dns/packet.c:253-264 | such a reply echoes the query exactly for the first try of an IPv6 pointer |
| Resolver.EchoTriesOnce | modules/dns/packet.c:253-264 | a reply that echoes the query asks to try again only after the first try of an IPv6 pointer |
| Resolver.MovedKeepsInv | modules/dns/lookup.c:111-143 | moving a lookup keeps it on exactly the list its flag names, and the counts and limits |
| Resolver.SentKeepsInv | modules/dns/packet.c:37-148 | a lookup that was sent is pending with its timer armed for the backoff of its retries |
| Resolver.ExpiredKeepsInv | modules/dns/dns.c:56-86 | a retry keeps the accounts of sends and waits |
| Resolver.AgainKeepsInv | modules/dns/packet.c:253-264 | so does a reply to try again, echo or stray |
| Resolver.CachedKeepsInv | modules/dns/packet.c:497-518 | caching keeps the cache within its size, with a timer on every entry |
| Resolver.Queues.Move | modules/dns/lookup.c:111-143 | the lookup leaves its list and joins the one named, at the end named; the counts follow |
| Resolver.Queues.Destroy | modules/dns/lookup.c:147-179 | the lookup is on no list |
| Resolver.TtlIsLeast | modules/dns/packet.c:471-490 | the time a finished lookup is good for is the least of the expiry, the answers' and, without answers, the SOA's |
| Resolver.Queues.MinTtl | modules/dns/packet.c:471-490 | the loop gives that time |
| Resolver.Queues.Announce | modules/dns/packet.c:471-495 | the callbacks are called once each, in the order they were added, with the time to live set to that |
| Resolver.Queues.Shelve | modules/dns/packet.c:501-504 | a full cache loses its last entry and the lookup becomes the first |
| Resolver.Queues.Finish | modules/dns/packet.c:470-518 | every callback is called once; by its time to live and the settings, the lookup is cached at the head, dropping the last entry of a full cache, or freed |
| Resolver.Queues.Send | modules/dns/packet.c:26-148 | the first waiting lookup is sent and joins the active ones last with the wait for its retries, fails because it cannot be asked, with its callbacks and no others called, or goes back to the head if it cannot be written, its second try forgotten |
| Resolver.Queues.SendAll | modules/dns/dns.c:82-83 | so many sends were made, one after the other with the callbacks each calls; they end with the active list full, nothing waiting, or the last of them not written |
| Resolver.Queues.Expire | modules/dns/dns.c:56-80 | a cached lookup goes, one without retries fails with Timeout and Failed after the whole backoff, its callbacks called, any other waits first in line with one retry fewer and no timer |
| Resolver.Queues.TimerHook | modules/dns/dns.c:56-86 | a cached lookup goes; any other waits first in line with one retry fewer or fails, its callbacks called, and so many sends follow, until the active list is full, nothing waits, or the last of them was not written |
| Resolver.ExpiryFreesAnother | modules/dns/packet.c:501-504 | failing a lookup after its last timer, with failures cached and the cache full, frees another lookup whose timer is running |
| Resolver.Queues.FindReplied | modules/dns/packet.c:175-186 | the loops find that lookup |
| Resolver.Queues.Parse | modules/dns/packet.c:153-283 | the reply is applied to the first active lookup with its id, else to the first waiting one that was tried before, and only its callbacks are called; without one nothing changes; a reply without error and with answers adds no failure flag, an unknown name or no answers adds Nxdomain and Failed, truncation or another error Failed alone; then the lookup is first in the cache for its time to live, or freed, as the settings say; an unknown name in `ip6.arpa` has it wait again, first in line |
| Resolver.FailingCloses | modules/dns/packet.c:470-518 | a finished lookup is first in the cache, for its least time to live, if and only if that and the cache are not 0 and it has not failed or failures are cached; else it is freed |
| Resolver.Queues.Answer | modules/dns/packet.c:193-283 | mangled replies are ignored, errors fail the lookup, an unknown name in `ip6.arpa` has it wait again, anything else finishes it with the time to live of the reply |
| Resolver.Queues.Request | modules/dns/lookup.c:28-86 | a cached lookup answers at once and becomes the most recent, a known one takes the callback, a new one is added once; no two lookups ever share class, type and name |
| Resolver.Queues.Find | modules/dns/lookup.c:231-247 | finds the lookup of that class, type and name if and only if there is one |
| Resolver.Queues.Touch | modules/dns/lookup.c:52-53 | a cached lookup that is asked for becomes the most recently used |
| Resolver.Queues.Create | modules/dns/lookup.c:64-82 | a new lookup waits last, with all its retries and the next id |
| Resolver.Queues.Cancel | modules/dns/lookup.c:91-105 | the callback is taken off once from every active and every waiting lookup; exactly the waiting ones then without a callback are destroyed |
| Resolver.UnhookedExactly | source/event.c:241-260 | one hook of the function goes, and the function is left if and only if it was hooked at least twice |
| Glob.SameCharacter | source/string.c:42-65 | which bytes the case table takes for the same character |
| Glob.StarStar | source/string.c:425-429 | stars after a star add nothing |
| Glob.StarQuestion | source/string.c:430-433 | a question mark after a star may take the next byte |
| Glob.Matcher.MatchFrom | source/string.c:407-459 | true if and only if the pattern matches by its meaning and its groups fit in the depth that is left; the counter is restored |
| Glob.Skip | source/string.c:425-433 | skipping the wildcards after a star keeps what is left to match |
| Glob.Matcher.TryEach | source/string.c:439-446 | true if and only if the character after the star has a place from which the rest matches, within the depth |
| Glob.Matcher.Match | source/string.c:461-468 | true if and only if the pattern matches and has at most eleven groups |
| BaseCodec.DmapOfEmap | source/string.c:839-898 | the decoding tables undo the encoding tables |
| BaseCodec.Alphabet | source/string.c:839-841 | the characters of the encoding tables, one by one |
| BaseCodec.StrayDigit | source/string.c:843-898 | the bytes read as digits are exactly those that stand for one, letters below base 64 in either case, and byte 255, as 0 |
| BaseCodec.StraySeparator | source/string.c:843-898 | the bytes passed over as separators are exactly white space and padding in base 64, and the entry each missing comma made |
| BaseCodec.Encode | source/string.c:904-932 | exactly ceil(8n/k) characters and a NUL; read as a number, the bytes with zero bits after them |
| BaseCodec.PutAll | source/string.c:917-922 | every whole digit in the register is put out, and less than one is left |
| BaseCodec.Decode | source/string.c:939-972 | the whole bytes of the digits' number, in place or not, characters that are no digits passed over; the error is reported exactly when one of those is followed by a character that is not a separator |
| BaseCodec.GiveByte | source/string.c:959-964 | turning the eight bits over instead of clearing them never reaches a later byte |
| BaseCodec.RoundTrip | source/string.c:904-972 | decoding what was encoded gives the bytes, followed by one more exactly when k does not divide 8n, and which one |

## Left out

- Sockets, pollers, the main loop, signals, logging, files and configuration: `socket_write`, `inet_pton` and the
  clock are parameters or arbitrary results.
- Message text, protocol commands, modes, privileges, services, mail and proxy scanning: unrelated to the state kept.
- Loading and reloading modules, and the symbols, saved data and hooks of a module: only unloading has a closed
  statement. Unload handlers and event hooks are steps that do not change the registry.
- The static search path of `find_module` by file: modules are found by name.
- DNS messages beyond 16383 bytes, where a pointer no longer fits in 14 bits: the table holds only offsets below it.
- The array after a DNS message has one byte of slack, as the reader looks at a pointer's second byte before its bound.
- Resource records: a reply is its header, its question, the TTLs of its answers and the minimum of its SOA.
- Reply names shorter than eight bytes are not compared with the IPv6 domain; the C code compares what precedes them.
- Callbacks of the resolver do not call it; the lookup a request returns may already have failed and been freed.
- Changing the limits of the resolver in a run.
- TimerQueue.Queue.Callback: callbacks create and destroy timers, but do not adjust any.
- TimerQueue.Queue.Exec: the clock stands still during a pass, and intervals are at least 1, as two repeating timers of
  interval 0 keep a pass from ending. A timer whose reference a callback was given again in the same pass is left open.
- TimerQueue.Queue.Create: timers are values known by reference, not heap records.
- Md5: the words of the bit count are integers below 2^32, the words of the state are bit vectors.
- Md5.Context.Update: not for the chunks whose loop test goes wrong, which read beyond their end.
- DnsExpand.DnExpand: a length of 0, for which the code writes its NUL past the buffer.
- DnsWriter.DnComp: not for a table with entries left behind by a call that had no room for its pointer.
- HashTable.Table: the hash and the comparison are parameters, and so is the key of an entry, which does not change
  while the entry is in the table; tables have at most 2^29 buckets.
- HashTable.Table.Insert: not into a full table of more than 2^28 buckets, where the refill would grow it again.
- HashTable.Table.Resize: for head insertion only the entries of each bucket are stated, as a refill turns their order.
- NickHistory: nicknames are compared and hashed by folding each character, which is what `istrcmp` and `tolower` do
  to the nicknames the callers admit under the built-in character map. The `charmaps` setting
  (modules/ircd/conf.c:88-93) can make `istrcmp` equate characters that `tolower` keeps apart; the hash then no longer
  respects the comparison, as `HashTable.Table.Find` asks, and two entries may have equal nicknames. Channel
  membership, modes and messages of a leaving client are left out.
- ServerTree: introducing a server, the channels and the notices of a burst.
- FanOut: `CACHE_MSG` is false as written, so each send makes its own block; message formats are a function of the link.
- Mdext.ClientIterator: the only iterator modelled; the other modules' iterators have the same form.
- Glob: `hostmatch`, with its brackets and alternatives.
- BaseCodec: shifts, masks and the exclusive or of the register are written as arithmetic.
- `strlcpy`, `strlcat`, time conversion and the other helpers of these files: easy.
