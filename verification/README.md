# Genkan in Dafny

Genkan is a greeter, a screen locker and a dynamic-wallpaper client. This project models the parts of it
that decide something on their own, and proves what they promise:

- **Untrusted input.** `BinaryPlist` (over `ObjectGraph`), `Container` (over `BoxFormat` and `BoxTree`),
  `IccProfile` and `ExecLine` are checkers. Each is an imperative walk proved to accept exactly a language
  defined without it: an object graph that unfolds to a tree within its ceilings, a box tree whose
  whole-file sums are within budget, a profile whose text stays within two ceilings, and a two-level
  grammar of command lines.
- **How it is written.** `BoxWriting`, `PlistWriting`, `IccWriting` and `ExecWriting` (over `ByteWriting`) lay
  the same formats out byte by byte, without a buffer or an offset in sight. `BoxLeaves` and `BoxGrammar`,
  and `PlistGrammar`, prove that a file reads as something if and only if it is a writing of just that;
  `BoxCounts` counts the boxes of a written file one by one and turns the budget into plain sums.
- **The login screen.** `Conversation` and `App` are its objects, `GreeterState` is the function they are
  proved to compute, `GreeterLaws` is what one of its updates owes the user, greetd and the window system,
  and `GreeterRuns` runs that function together with every task in flight and
  everything greetd has seen. Its theorems hold at every moment of every run.
- **Pixels.** `Pixels` packs, converts and composites a decoded plane in place. `Cover` scales a frame over a
  surface. `LoopPublication` dissolves one frame into another and publishes it in two lock sections.
- **Processes and callbacks.** `Relay` and `RelayReader` are the framed stream between the HEIC worker and
  its relay, `Supervisor` is the race between a dropping owner and the thread that owns the worker, and
  `Presentation` is the frame-callback bookkeeping of one surface.
- **Time.** `Calendar` turns civil dates of any year into instants.

`Prelude` holds byte-order readers, machine widths and a few facts about division.

Code that changes state step by step keeps that form: a class whose methods are proved equal to a function
of the old state, or a loop over an array or a buffer. What the source promises is then proved about those
functions. `dafny verify dfyconfig.toml` checks everything.

## How the model reads the source

- Machine integers are explicit where they matter: `CheckedAdd` and `CheckedMul` fail beyond the width the
  source uses, `usize` is 64 bits, and no slice is longer than `isize::MAX`.
- Allocations may be refused: `granted` and `scratchGranted` in `Pixels.PackRgba`, `refused` in
  `RelayReader.RunReader`. A colour transform is an arbitrary function of a pixel that may also refuse a
  chunk. Reads from the worker deliver any non-empty part of what is left.
- Threads interleave at lock sections, atomic accesses and process operations.
- Callers keep a few promises the model relies on. Account names are not empty: `valid_username` and
  `parse_username` refuse empty ones. The screen offers `Retry` only while a session is selected
  (`src/app/view.rs:357-366`, `src/app/focus.rs:104-109`). A decoded plane has a width or a stride above
  zero. Ceilings given to the ICC walk are below `usize::MAX`. Frames have non-zero sizes and exactly four
  bytes a pixel.
- Opening transitions announce new pixels: a transition starts together with `playback_changed`.

## What the proofs show about the code

- The check of the binary property list at line 1519 fires only when the object limit is zero; for any other
  limit a full stack has been refused before.
- Live recursion of the container walk: an admitted box sits at most at the depth ceiling, and the call that
  refuses a deeper one is a single level below it. The byte charge of an item is its largest location
  record, whichever records stand before it.
- The content type of an item never changes whether it is loaded eagerly, because every MIME item is.
- The comment that the ICC walk runs in time proportional to the tag count does not mention localization
  records: the record headers it looks at are bounded by the record ceiling plus the tag count.
- After the program exits, the phase is still `StartingSession` and no exchange is in flight
  (`GreeterRuns.AfterExit`). Until then one exchange of the current attempt is in flight exactly while the
  phase is busy and closing has not begun or still waits for the client; a later stage of closing may leave
  the phase busy, with its exchange made stale.
- Right before every session creation a cancellation is tried, but it need not reach greetd: the recovery
  connection can fail on its own and the next one succeed. `GreeterRuns.RecoveryMayNotReachGreetd` is such a
  run. `GreeterRuns.CreationFollowsCancellation` is the exact condition, over every run: that cancellation
  reaches greetd if and only if the creation skips the recovery, or its own recovery could connect and send.
  When the recovery is skipped greetd also confirmed the cancellation.
- Choosing an account never replaces another one: whenever it can be done no account is chosen
  (`GreeterRuns.ChoiceNeverReplaces`), so `select_account` always begins and never restarts.
- A session is selected whenever the phase is not the failed one (`GreeterRuns.SessionIsSelected`), so the
  branch that reports a missing session after a successful authentication is never taken.
- A premultiplied pixel survives conversion to straight colour and back exactly when no channel exceeds its
  alpha; larger channels come back cut off at alpha.

## Model

| member | source | states |
|---|---|---|
| ObjectGraph.FitsStep | src/dynamic_wallpaper/heic.rs:1514-1608 | replacing the top of the stack by its children keeps exactly the same set of finite expansions, node counts, depths and byte costs within the ceilings |
| ObjectGraph.FitsRoom | src/dynamic_wallpaper/heic.rs:1514-1525 | a stack that still fits never holds more pending objects than the object ceiling has left |
| ObjectGraph.FitsStepRoom | src/dynamic_wallpaper/heic.rs:1575-1600 | the early rejection of a planned stack is never stricter than the final size of the expansion |
| ObjectGraph.RootFits | src/dynamic_wallpaper/heic.rs:1511-1516 | a stack of the root alone fits exactly when the whole expansion from the root does |
| ObjectGraph.UnfoldingUnique | src/dynamic_wallpaper/heic.rs:1514-1608 | an object has at most one expansion, so the totals the walk charges are well defined |
| ObjectGraph.ExpansionIsAcyclic | src/dynamic_wallpaper/heic.rs:1514-1608 | along a finite expansion no reference path repeats an object |
| ObjectGraph.Build | src/dynamic_wallpaper/heic.rs:1514-1608 | an acyclic graph whose reachable objects are all present has an expansion |
| ObjectGraph.DepthIsChainLength | src/dynamic_wallpaper/heic.rs:1514-1525 | the nesting of an expansion is within the depth ceiling exactly when no chain of references holds more objects |
| ObjectGraph.CostByNodes | src/dynamic_wallpaper/heic.rs:1517-1522 | every node of an expansion is charged at least the fixed cost of an object |
| ObjectGraph.UnfoldsIffAcyclic | src/dynamic_wallpaper/heic.rs:1514-1608 | the root has a finite expansion if and only if every reachable object is present and none is reachable from itself |
| BinaryPlist.ReadBe | src/dynamic_wallpaper/heic.rs:1650-1665 | reads the big-endian number of the bytes named, never overflowing, and fails exactly when they leave the buffer |
| BinaryPlist.CheckedRange | src/dynamic_wallpaper/heic.rs:1643-1648 | accepts exactly the ranges that end by the given end without wrapping |
| BinaryPlist.ChargeExpandedBytes | src/dynamic_wallpaper/heic.rs:1612-1620 | the new total is within the byte ceiling or the charge fails |
| BinaryPlist.ObjectLength | src/dynamic_wallpaper/heic.rs:1622-1641 | reads the inline or the extended length of an object and where its payload starts, as the format describes it |
| BinaryPlist.ReadTrailer | src/dynamic_wallpaper/heic.rs:1475-1502 | accepts exactly the trailers whose widths, counts, root and offset table agree with the file |
| BinaryPlist.ReadOffsets | src/dynamic_wallpaper/heic.rs:1503-1512 | returns every declared offset, in order, exactly when each lies in the object area |
| BinaryPlist.ReadLayout | src/dynamic_wallpaper/heic.rs:1470-1512 | succeeds exactly on a well-placed layout and returns it |
| BinaryPlist.InspectData | src/dynamic_wallpaper/heic.rs:1550-1564 | a data or string object is present with the decoded size charged, or refused for its range or for the byte ceiling |
| BinaryPlist.InspectCollection | src/dynamic_wallpaper/heic.rs:1569-1605 | a collection yields exactly its references, keys before values, or is refused for its range, its bytes or its planned size |
| BinaryPlist.ReadReferences | src/dynamic_wallpaper/heic.rs:1593-1604 | every reference of a collection is read in order, exactly when each names an object of the table |
| BinaryPlist.Inspect | src/dynamic_wallpaper/heic.rs:1526-1607 | one turn of the worklist decodes the object on top exactly as the object graph defines it, and refuses a well-formed object only for a ceiling |
| BinaryPlist.Push | src/dynamic_wallpaper/heic.rs:1593-1604 | the references go on the stack in order, one level deeper, and nothing below them moves |
| BinaryPlist.Expand | src/dynamic_wallpaper/heic.rs:1514-1609 | on every graph, cyclic ones included, the worklist ends, expanded and pending objects together never pass the object ceiling, the check at line 1519 fires only for a zero ceiling, and it succeeds exactly when the root expands within every ceiling |
| BinaryPlist.Preflight | src/dynamic_wallpaper/heic.rs:1469-1610 | Ok if and only if the layout is valid and the root expands to a finite tree within the object, depth and byte ceilings, shared objects charged once per reference |
| BinaryPlist.AcceptableIff | src/dynamic_wallpaper/heic.rs:1469-1610 | the accepted language in the words of graphs: nothing missing, nothing cyclic, and one expansion within every ceiling |
| PlistGrammar.DecodesIff | src/dynamic_wallpaper/heic.rs:1526-1641 | an object decodes if and only if a null, boolean, number, date, data, text, UTF-16 text, uid, array, set or dictionary is written there, with an inline or an extended count, and then to exactly its references and decoded size |
| PlistGrammar.LayoutIff | src/dynamic_wallpaper/heic.rs:1470-1512 | a layout is found if and only if the file is magic, objects, offset table and trailer in that order, and then it is the one written |
| PlistGrammar.CountRead | src/dynamic_wallpaper/heic.rs:1622-1641 | a count of any of the five widths is read back, and the payload starts right behind it |
| BoxFormat.BoxesBound | src/dynamic_wallpaper/container.rs:144-161 | boxes that fill a region consume at least eight bytes each and nest no deeper than the region allows |
| BoxFormat.ChildrenBound | src/dynamic_wallpaper/container.rs:163-200 | the children of a box fit inside its body, at least eight bytes each |
| BoxFormat.BoxBound | src/dynamic_wallpaper/container.rs:604-656 | a box is bounded by its own extent in number of boxes and in depth |
| BoxTree.CompletesCons | src/dynamic_wallpaper/container.rs:144-161 | a walk over boxes completes exactly when the first does and the rest does from the sums it leaves |
| BoxTree.CompletesNode | src/dynamic_wallpaper/container.rs:163-207 | visiting a box completes exactly when it, its depth and its children are affordable |
| BoxTree.ChargeSplit | src/dynamic_wallpaper/container.rs:125-142 | the byte charge of a set of items does not depend on the order they are charged in |
| BoxTree.LargestIsMaximum | src/dynamic_wallpaper/container.rs:125-142 | the charge of an item is attained by one of its location records and bounds them all |
| BoxTree.LargestConcat | src/dynamic_wallpaper/container.rs:125-142 | location boxes combine by maximum, in whatever order they occur |
| BoxTree.DecoysNeverLowerTheCharge | src/dynamic_wallpaper/container.rs:125-142 | adding location records or eager items anywhere never lowers the byte charge |
| BoxTree.ChargeMonotone | src/dynamic_wallpaper/container.rs:125-142 | more items with records at least as large are charged at least as much |
| BoxTree.InsertionEmbeds | src/dynamic_wallpaper/container.rs:144-207 | putting boxes between the boxes of a region is an insertion; nested regions are covered by the definition |
| BoxTree.InsertedBoxesEvadeNothing | src/dynamic_wallpaper/container.rs:52-207 | insertions at any depth never lower a counter, the byte charge or the depth; taking them out of an affordable file leaves an affordable one exactly when it still announces its metadata |
| BoxTree.AffordableFromStart | src/dynamic_wallpaper/container.rs:104-123 | the early-exit walk from empty totals completes exactly when the whole-file sums are within budget |
| BoxTree.SumConcat | src/dynamic_wallpaper/container.rs:69-100 | the totals of two runs of boxes are the sum of their totals |
| Container.Walk.Read | src/dynamic_wallpaper/container.rs:659-667 | returns exactly the bytes named, and fails exactly when they leave the enclosing box |
| Container.Walk.ReadUint | src/dynamic_wallpaper/container.rs:693-704 | a field of zero, four or eight bytes read big-endian, failing exactly when it leaves the box |
| Container.Walk.ReadCString | src/dynamic_wallpaper/container.rs:717-732 | the bytes up to the first terminator, or short of the byte that exhausts the box, and the place after them |
| Container.Walk.ReadHeader | src/dynamic_wallpaper/container.rs:604-656 | the header exactly as the box structure defines it: 32-bit, 64-bit and to-the-end sizes, extended types, at least eight bytes and inside its parent |
| Container.Walk.WalkBoxes | src/dynamic_wallpaper/container.rs:144-161 | runs at most one level below the depth ceiling; completes exactly when the region parses into boxes that are affordable from the current totals, and adds exactly their sums |
| Container.Walk.Visit | src/dynamic_wallpaper/container.rs:163-207 | admits a box exactly when it and everything below it parses and is affordable |
| Container.Walk.Descend | src/dynamic_wallpaper/container.rs:176-207 | children are looked for exactly where the kind of the box puts them |
| Container.Walk.WalkVisualSampleEntry | src/dynamic_wallpaper/container.rs:209-229 | a visual sample entry has children after its fixed prefix and a bounded name length |
| Container.Walk.ParseIinf | src/dynamic_wallpaper/container.rs:277-306 | exactly the declared number of entries is present, and they are counted over the whole file |
| Container.Walk.ParseStsd | src/dynamic_wallpaper/container.rs:308-329 | exactly the declared number of sample entries is present |
| Container.Walk.ParseInfe | src/dynamic_wallpaper/container.rs:331-394 | an entry of any version is read as defined and remembered once if the library loads it eagerly |
| Container.Walk.ParseIloc | src/dynamic_wallpaper/container.rs:396-481 | all location records of all versions are summed with their extents, within the record and extent ceilings |
| Container.Walk.SumExtents | src/dynamic_wallpaper/container.rs:455-476 | the size of a record is the sum of its extent lengths, and the next record starts right after them |
| Container.Walk.ParseIref | src/dynamic_wallpaper/container.rs:483-524 | every reference list fills its box and the references of all lists are within the ceiling |
| Container.Walk.ParseTref | src/dynamic_wallpaper/container.rs:526-561 | track references are counted with the item references |
| Container.Walk.ParseIpma | src/dynamic_wallpaper/container.rs:563-602 | entries and associations over every association box are within their ceilings |
| Container.Walk.ParseFtyp | src/dynamic_wallpaper/container.rs:231-253 | a sequence brand is seen exactly when the major or a compatible brand is one |
| Container.Walk.ParseColr | src/dynamic_wallpaper/container.rs:255-275 | an embedded profile must carry bytes |
| Container.Walk.CheckMetadataBytes | src/dynamic_wallpaper/container.rs:125-142 | the bytes charged are those of the distinct eager items, each its largest record, in total within the ceiling |
| Container.Walk.Run | src/dynamic_wallpaper/container.rs:104-123 | the walk from empty totals decides the whole-file predicate |
| Container.Preflight | src/dynamic_wallpaper/container.rs:52-123 | Ok if and only if the file parses into a box tree whose item, record, reference, association, box, depth and byte totals are all within budget |
| BoxGrammar.ReadIffWritten | src/dynamic_wallpaper/container.rs:144-602 | a file reads as a box tree if and only if it is a legal writing of that tree: every size form, every prefix before child boxes, every field of every box kind |
| BoxGrammar.WrittenIsRead | src/dynamic_wallpaper/container.rs:144-656 | the tree read from a written file is exactly the tree that was written |
| BoxGrammar.ChildrenRead | src/dynamic_wallpaper/container.rs:163-329 | children stand behind nothing, four, eight or 78 bytes, or behind version, flags and count, by the kind of their box |
| BoxLeaves.HeadRead | src/dynamic_wallpaper/container.rs:604-656 | a head with its size in 32 bits, in 64 bits or left open is read back |
| BoxLeaves.ItemLocationsRead | src/dynamic_wallpaper/container.rs:396-481 | the records written, with their widths, extents and sums, are the records read |
| BoxLeaves.ReferencesRead | src/dynamic_wallpaper/container.rs:483-524 | the destinations written in the lists of a reference box are those counted |
| BoxLeaves.PropertiesRead | src/dynamic_wallpaper/container.rs:563-602 | the entries and properties written are those counted, in either identifier and property width |
| BoxCounts.TotalsOf | src/dynamic_wallpaper/container.rs:69-123 | every total of the walk is the count over all boxes of the file, outer before inner |
| BoxCounts.AcceptedIff | src/dynamic_wallpaper/container.rs:52-142 | a written file is accepted if and only if its boxes, counted one by one, respect every ceiling and the items loaded at once fit by their largest records |
| IccProfile.RecordsHaveRoom | src/dynamic_wallpaper/heic.rs:587-625 | however many records a tag declares, at most as many as fit in it are charged |
| IccProfile.Meter.ChargeRecord | src/dynamic_wallpaper/heic.rs:676-695 | a record that fits its tag is charged once, one that does not ends the tag unharmed |
| IccProfile.Meter.ChargeLocalized | src/dynamic_wallpaper/heic.rs:588-625 | the records up to the first misfit are charged together, or a ceiling is exceeded by them |
| IccProfile.Meter.ChargeDescribed | src/dynamic_wallpaper/heic.rs:626-665 | both sections of a description are charged at their decoded size when present |
| IccProfile.Meter.ChargeText | src/dynamic_wallpaper/heic.rs:580-674 | a tag is charged exactly what it makes the parser hold, and the headers looked at are bounded by the records charged |
| IccProfile.Meter.ChargeTags | src/dynamic_wallpaper/heic.rs:538-572 | every tag lies inside the profile and their demands, overlapping or not, add up to within both ceilings |
| IccProfile.Preflight | src/dynamic_wallpaper/heic.rs:490-573 | Ok if and only if extent, tag table and text budget hold; the record headers looked at never exceed the record and tag ceilings, whatever the tags declare |
| IccWriting.LocalizedDemand | src/dynamic_wallpaper/heic.rs:587-625 | a written localized tag is charged the records up to the first that does not fit, whatever it declares |
| IccWriting.DescriptionDemand | src/dynamic_wallpaper/heic.rs:626-665 | a written description is charged its ASCII section, and its Unicode section when all of it is there |
| IccWriting.TextDemand | src/dynamic_wallpaper/heic.rs:666-672 | a written text tag is charged three bytes for each byte of its text |
| IccWriting.OtherTagsHoldNoText | src/dynamic_wallpaper/heic.rs:474-475 | tags of any other type are charged nothing |
| IccWriting.ProfileIsRead | src/dynamic_wallpaper/heic.rs:490-573 | the tag table written is the one read, and each tag names the bytes it was given; a zero size runs to the end |
| IccWriting.ProfileAcceptedIff | src/dynamic_wallpaper/heic.rs:490-573 | a written profile is accepted if and only if its size, tag count and tags are right and the texts of all tags add up to within both ceilings |
| IccWriting.Utf16BoundHolds | src/dynamic_wallpaper/heic.rs:697-703 | no UTF-16 payload decodes to more UTF-8 bytes than it is charged |
| IccWriting.Utf16BoundIsTight | src/dynamic_wallpaper/heic.rs:697-703 | a text of every length needs all of that charge |
| IccWriting.LossyBoundHolds | src/dynamic_wallpaper/heic.rs:705-710 | no lossy conversion produces more bytes than it is charged |
| IccWriting.LossyBoundIsTight | src/dynamic_wallpaper/heic.rs:705-710 | an input of every length produces all of them |
| Pixels.MapConcat | src/dynamic_wallpaper/heic.rs:881-899 | a pointwise pass over chunks is the pass over the whole, wherever it is cut between pixels |
| Pixels.MapCompose | src/dynamic_wallpaper/heic.rs:850-862 | two passes are one pass of the composed function |
| Pixels.ScaledIsNearest | src/dynamic_wallpaper/heic.rs:923-933 | compositing rounds to the nearest level and never exceeds alpha |
| Pixels.ScaledAfterDivided | src/dynamic_wallpaper/heic.rs:905-933 | compositing after dividing alpha out gives the channel back, cut off at alpha |
| Pixels.DividedIsNearest | src/dynamic_wallpaper/heic.rs:905-919 | dividing alpha out rounds to the nearest level and saturates |
| Pixels.PixelShown | src/dynamic_wallpaper/heic.rs:844-873 | a shown pixel is the converted straight colour times the converted alpha, rounded, or the premultiplied channels as they are |
| Pixels.RestoredIff | src/dynamic_wallpaper/heic.rs:905-933 | a pixel survives the detour through straight colour if and only if no channel exceeds its alpha |
| Pixels.Unpremultiply | src/dynamic_wallpaper/heic.rs:905-919 | one pointwise pass over the whole pixels of a buffer of any size |
| Pixels.CompositeOverBlack | src/dynamic_wallpaper/heic.rs:923-933 | one pointwise pass that scales straight channels and makes every pixel opaque |
| Pixels.ConvertToSrgb | src/dynamic_wallpaper/heic.rs:881-899 | converting chunk by chunk in place is one pointwise pass for any transform, and fails exactly when the scratch buffer or a chunk is refused |
| Pixels.RowsAt | src/dynamic_wallpaper/heic.rs:854-857 | column x of row y of the packed plane is the byte the plane holds there |
| Pixels.PackRows | src/dynamic_wallpaper/heic.rs:854-857 | packing a strided plane keeps exactly the visible part of each row |
| Pixels.PackRgba | src/dynamic_wallpaper/heic.rs:823-873 | exact success condition, the first failing check or refusal names the error, and the frame is the packed plane with every pixel sent through unpremultiplying, conversion and compositing |
| Pixels.AlwaysOpaque | src/dynamic_wallpaper/heic.rs:816-873 | every pixel of every packed frame is opaque |
| Pixels.NeutralConversionIff | src/dynamic_wallpaper/heic.rs:858-866 | converting with a transform that changes nothing gives the unconverted frame if and only if no channel of the plane exceeds its alpha |
| Conversations.AppendBounded | src/conversation.rs:253-262 | appends the longest part that keeps the text within its character ceiling |
| Conversations.BoundedText | src/conversation.rs:273-282 | a short text unchanged, a long one cut to the ceiling with an ellipsis as its last character |
| Conversations.Conversation.UpdateInput | src/conversation.rs:137-144 | only a waiting prompt can be edited, and the input is then the bounded new text |
| Conversations.Conversation.PushInput | src/conversation.rs:146-153 | only a waiting prompt takes more input, bounded |
| Conversations.Conversation.PopInput | src/conversation.rs:155-167 | a backspace removes the last character of a waiting prompt and reports whether there was one |
| Conversations.TypingInParts | src/conversation.rs:146-153 | how typed text is split into events does not matter, even where the bound cuts it |
| Conversations.BackspaceUndoesTyping | src/conversation.rs:146-167 | a backspace takes back a typed character exactly when the character fitted |
| Conversations.Conversation.Submit | src/conversation.rs:169-176 | a waiting response is handed out once with its attempt and cleared |
| Conversations.Conversation.Receive | src/conversation.rs:178-210 | a stale response changes nothing; a current one clears the input and sets the status it asks for |
| App.App.Launch | src/app/mod.rs:164-251 | the first screen and the first task for each startup |
| App.App.Update | src/app/mod.rs:272-633 | every message changes the fields and launches the tasks the screen function prescribes |
| App.App.HandleAuthResult | src/app/auth_flow.rs:55-81 | a stale result is dropped, one that closing waits for becomes a cancellation, any other moves the conversation |
| App.App.HandleAuthResponse | src/app/auth_flow.rs:83-204 | each answer of greetd has its phase, its follow-up request or its failure |
| App.App.BeginClosing | src/app/mod.rs:582-615 | each screen closes over the cancellation it still owes |
| App.App.ChangeAccount | src/app/mod.rs:704-718 | changing account drops the connection into a cancellation of a fresh attempt |
| GreeterLaws.TasksNameTheirState | src/app/auth_flow.rs:206-290 | every task belongs to the account, the attempt and the window of the state it leaves behind |
| GreeterLaws.ChoiceIsHonoured | src/app/mod.rs:667-695 | choosing an account shows it and begins a session for it and nobody else |
| GreeterLaws.DiscoveryIsHonoured | src/app/mod.rs:346-359 | discovery begins with the preferred account, asks for a choice, or fails when there is nobody |
| GreeterLaws.RetryStartsOver | src/app/mod.rs:490-506 | starting over keeps the account and hands the connection to a fresh attempt, or discovers accounts again |
| GreeterLaws.ChangeCancelsFirst | src/app/mod.rs:362-400 | after a change of account nobody can be chosen until greetd confirmed the cancellation |
| GreeterLaws.ConnectionIsConserved | src/app/mod.rs:582-718 | a connection that is held or delivered is kept or handed to exactly one task |
| GreeterLaws.RequestsFollowAnswers | src/app/auth_flow.rs:83-204 | exactly when the typed answer, an acknowledgement or the session start is sent |
| GreeterLaws.ExitIff | src/app/auth_flow.rs:83-116 | the program exits exactly when greetd accepts the session start of the current attempt |
| GreeterLaws.PromptOpensAnswer | src/app/auth_flow.rs:137-204 | a prompt opens an empty answer, hidden exactly when the prompt asks for it |
| GreeterLaws.AnswerIsTyped | src/app/mod.rs:507-528 | what is sent is what was typed, and it is not kept |
| GreeterLaws.RefusalsFail | src/app/auth_flow.rs:55-81 | a refusal or a lost connection ends in the failed phase with no answer kept |
| GreeterLaws.StaleIsIgnored | src/app/auth_flow.rs:55-63 | results of an abandoned attempt change nothing |
| GreeterLaws.PowerIsConfirmed | src/app/mod.rs:530-576 | a power action runs exactly when the dialog shows it and it is confirmed |
| GreeterLaws.PowerIsAskedFor | src/app/mod.rs:530-541 | the dialog shows an action only after it was asked for where that is allowed |
| GreeterLaws.PowerRunsOnce | src/app/mod.rs:542-576 | one action runs at a time, until it fails or the machine resumes |
| GreeterLaws.TimeoutCloses | src/app/mod.rs:621-631 | in every stage of closing its timeout closes the window |
| GreeterLaws.ClosingHears | src/app/mod.rs:272-294 | each stage of closing is left only for what it waits for |
| GreeterLaws.ClosingCancels | src/app/mod.rs:582-615 | closing cancels the session over the held connection, waits for the one being made, or has nothing to cancel |
| GreeterRuns.UpdateKeeps | src/app/mod.rs:272-633 | one update keeps the books: exchanges, creations, discovery, selection, closing and the request log |
| GreeterRuns.StepKeeps | src/app/auth_flow.rs:206-290 | a user message, a greetd request or a finished task keeps the invariant |
| GreeterRuns.RunKeeps | src/app/mod.rs:163-633 | the invariant holds at every moment of every run from every startup |
| GreeterRuns.OneExchange | src/app/auth_flow.rs:55-204 | at most one exchange of the current attempt is in flight; before the exit there is one exactly while the phase is busy and closing has not begun or still waits for the client; the screen waits for input exactly when the conversation does, and holds a response only then |
| GreeterRuns.ChoiceNeverReplaces | src/app/mod.rs:667-695 | whenever an account can be chosen, by the user or by discovery outside closing, none is chosen yet, so the branch that replaces one is unreachable |
| GreeterRuns.ConnectionIsHeld | src/app/mod.rs:507-529 | whenever a submitted answer, an acknowledgement or a session start needs the connection, it is there, so the lost-connection failures are unreachable |
| GreeterRuns.AfterExit | src/app/auth_flow.rs:83-92 | after the exit the session is starting, nothing is closing and no exchange is in flight |
| GreeterRuns.SessionIsSelected | src/app/auth_flow.rs:184-197 | whenever an exchange can be answered or a prompt submitted a session is selected, so the branch that misses one is unreachable |
| GreeterRuns.CancellationIsHeard | src/app/mod.rs:296-324 | while a selection cancellation runs the power dialog is closed, so its result is never filtered out |
| GreeterRuns.UpdateForward | src/app/mod.rs:272-294 | no message moves the closing protocol backwards or to another window |
| GreeterRuns.ClosingIsForward | src/app/mod.rs:582-631 | over a whole run closing goes none, waiting, cancelling, dispatching on one fixed window |
| GreeterRuns.ClosedOnce | src/app/mod.rs:582-631 | the window is closed exactly once, on entering the last stage, and until then a timer for it is in flight |
| GreeterRuns.CreationFollowsCancellation | src/auth.rs:72-129 | over every run, right before every session creation a cancellation was tried; it reached greetd if and only if there was no recovery or the recovery of that creation could connect and send, and without recovery greetd confirmed it |
| GreeterRuns.CreationNamesAccount | src/auth.rs:72-76 | over every run, each creation names the account on the screen at that moment |
| GreeterRuns.CreationsAreNamed | src/auth.rs:72-76 | no session is ever created for an empty name |
| GreeterRuns.RecoveryMayNotReachGreetd | src/auth.rs:83-91 | a concrete run in which two creations reach greetd and the cancellation tried between them does not |
| Calendar.NewDate | src/dynamic_wallpaper.rs:349-363 | accepts exactly the days the proleptic Gregorian calendar has |
| Calendar.NextDayIsNextNumber | src/dynamic_wallpaper.rs:377-379 | the next valid date has the next day number, in every year, negative ones included |
| Calendar.DayNumberMonotone | src/dynamic_wallpaper.rs:484-506 | later dates have larger day numbers |
| Calendar.DayNumberInjective | src/dynamic_wallpaper.rs:484-506 | two valid dates share a day number exactly when they are the same date |
| Calendar.InstantMonotone | src/dynamic_wallpaper.rs:484-506 | at a fixed offset instants order snapshots exactly as the wall clock does |
| Calendar.EpochIsZero | src/dynamic_wallpaper.rs:484-506 | in UTC the instant is zero exactly at midnight of 1970-01-01 |
| Calendar.TickIsOneNanosecond | src/dynamic_wallpaper.rs:484-506 | one nanosecond on the wall clock is one nanosecond of the instant, across every carry up to the year |
| Calendar.ZonesAgree | src/dynamic_wallpaper.rs:484-506 | a clock shifted together with its offset shows the same instant |
| Calendar.OffsetIsSubtracted | src/dynamic_wallpaper.rs:500-504 | local time runs ahead of the instant by the offset |
| Calendar.FourCenturies | src/dynamic_wallpaper.rs:377-379 | the calendar repeats after 146,097 days; 1900 has no leap day, 2000 has one |
| Calendar.InstantFits | src/dynamic_wallpaper.rs:484-506 | for every year the type can hold the instant fits its signed 128-bit result |
| ExecLine.DecodedIff | src/sessions.rs:244-263 | decoding the string escapes yields the only units a raw value spells |
| ExecLine.ParsesQuoted | src/sessions.rs:274-297 | a value that opens a quote parses exactly when the quote closes, is followed by a separator or the end, and the rest parses |
| ExecLine.ParsesWord | src/sessions.rs:299-305 | a value that opens a bare word parses exactly when its longest word has no reserved character and the rest parses |
| ExecLine.Decode | src/sessions.rs:244-263 | the index loop computes the decoded units, or fails on a bad escape |
| ExecLine.ScanQuoted | src/sessions.rs:274-292 | finds the end of a quoted argument exactly when it is well formed |
| ExecLine.ScanWord | src/sessions.rs:299-305 | finds the end of a bare word exactly when every character may stand bare |
| ExecLine.Scan | src/sessions.rs:265-307 | the nested loops end on every input and accept exactly the sequences of separated arguments |
| ExecLine.StrictExec | src/sessions.rs:240-308 | accepts exactly the language of the two-level grammar |
| ExecWriting.WrittenIsAccepted | src/sessions.rs:240-308 | whatever printable arguments a line is written from, quoted and escaped at both levels, it is accepted |
| ExecWriting.BareWordIff | src/sessions.rs:299-320 | a bare word is accepted if and only if it is printable and free of the reserved characters |
| ExecWriting.QuotedTextIff | src/sessions.rs:274-297 | inside quotes everything printable may stand but bare backticks and dollar signs |
| Relay.ExpectedFrameBytes | src/wallpaper.rs:926-940 | a size is accepted exactly within the dimension and byte ceilings, with four bytes a pixel |
| Relay.LittleUnique | src/wallpaper.rs:1184-1199 | a four-byte field has exactly one reading |
| Relay.LittleIsReversed | src/wallpaper.rs:1184-1199 | fields stand least significant byte first |
| Relay.TagsAreLetters | src/wallpaper.rs:46-48 | frames and failures are announced by their letters |
| Relay.WriteFrame | src/wallpaper.rs:1184-1199 | writes tag, size, length and pixels, and refuses only a length its field cannot hold |
| Relay.HeaderRoundTrip | src/wallpaper.rs:926-999 | an encoded frame in front of anything is read back as that frame |
| Relay.FrameRebuilds | src/wallpaper.rs:955-999 | a frame that was read encodes to exactly the bytes it was read from |
| Relay.RoundTrip | src/wallpaper.rs:955-999 | the frames read from the encodings of any admissible frames are those frames, followed by what the rest holds |
| Relay.RoundTripConsumed | src/wallpaper.rs:955-999 | reading them consumes exactly their encodings |
| Relay.PrefixIsEncoded | src/wallpaper.rs:955-999 | the frames read from any stream encode to a prefix of it |
| Relay.PrefixIsMaximal | src/wallpaper.rs:955-999 | no longer list of admissible frames encodes to a prefix of the stream |
| Relay.StopsAfterHeader | src/wallpaper.rs:955-999 | after whole frames and a refused header exactly the tag and twelve bytes more were read |
| RelayReader.Source.ReadExact | src/wallpaper.rs:955-999 | however the pipe fragments, exactly the bytes asked for, or everything left |
| RelayReader.Shared.Emit | src/wallpaper.rs:1018-1061 | one more publication, unless the failure was published |
| RelayReader.Shared.Fail | src/wallpaper.rs:1063-1075 | the failure is published exactly once and is last |
| RelayReader.ReadNext | src/wallpaper.rs:955-999 | the next message is a frame, a failure or neither exactly as the stream says, and nothing is read past a refused header |
| RelayReader.RunReader | src/wallpaper.rs:955-999 | under any fragmentation, refused buffers and cancellation: exactly the leading frames are shown, and then one failure unless cancelled |
| RelayReader.RelayWholeStream | src/wallpaper.rs:955-1075 | an uncancelled stream publishes its maximal frame prefix, then exactly one failure, so the sequence is the number of frames plus one |
| Supervisor.StepKeeps | src/wallpaper.rs:769-875 | every interleaved step of owner, worker and supervisor keeps the invariant |
| Supervisor.RunKeeps | src/wallpaper.rs:769-875 | the invariant holds at every moment of every interleaving |
| Supervisor.ReapedOnce | src/wallpaper.rs:787-826 | no signal targets a reaped process, and a finished supervisor reaped its child exactly once |
| Supervisor.CancellationReaches | src/wallpaper.rs:769-875 | a cancellation is never lost: once the owner is gone a live worker exists only before the supervisor looks at the flag, or when its guard is about to signal it |
| Supervisor.CancellationIsSilent | src/wallpaper.rs:955-999 | once the stream ended because of the cancellation, no failure has been published, then or ever after |
| Supervisor.OneLateFrame | src/wallpaper.rs:985-995 | at most one frame is published after the flag is set |
| Supervisor.CancellationFinishes | src/wallpaper.rs:797-875 | until it has finished the supervisor can proceed without a panic or a new failure; after cancellation every step brings the end closer and nothing blocks on a live worker |
| LoopPublication.Blend | src/wallpaper.rs:1745-1758 | every channel lies between the held and the opening one, and the ends of the dissolve are those frames |
| LoopPublication.MixMonotone | src/wallpaper.rs:1745-1758 | every channel moves monotonically from held to opening |
| LoopPublication.ProgressMonotone | src/wallpaper.rs:1733-1737 | progress never goes back as time passes |
| LoopPublication.Dissolve | src/wallpaper.rs:1668-1684 | the transition is kept exactly while it lasts and the frame fits it; until then every channel is within one and a half levels of the straight line from held to opening, otherwise the frame is shown unchanged |
| LoopPublication.LoopDissolves | src/wallpaper.rs:1733-1772 | a loop dissolves from the last frame shown, over its crossfade, from the moment it starts |
| LoopPublication.Cell.Take | src/wallpaper.rs:1669-1675 | the first section takes the transition, or refuses after a failure |
| LoopPublication.Cell.Store | src/wallpaper.rs:1685-1698 | the second section shows the frame and puts a transition back only where none was installed |
| LoopPublication.Cell.Publish | src/wallpaper.rs:1668-1699 | without interference the two sections together show the dissolved frame and keep an unfinished transition |
| LoopPublication.Cell.Begin | src/wallpaper.rs:1764-1772 | a loop starts from the last frame, or without a transition when there is none |
| LoopPublication.Cell.FailOnce | src/wallpaper.rs:1934-1947 | the failure replaces everything, once |
| LoopPublication.RunKeeps | src/wallpaper.rs:1668-1772 | the invariant of appsink, loop start, failure and consumer holds at every moment of every interleaving |
| LoopPublication.FailureIsAnnounced | src/wallpaper.rs:1934-1947 | recording the failure puts it in the place of whatever frame was waiting |
| LoopPublication.FailureIsFinal | src/wallpaper.rs:1934-1947 | once the failure section ran no frame is pending again and nothing of the video is retained |
| LoopPublication.NewerTransitionWins | src/wallpaper.rs:1685-1699 | a transition installed between the two sections is never overwritten by the older one; without one the kept transition returns |
| LoopPublication.RequestsAreSeparated | src/wallpaper.rs:1708-1726 | between two loop requests a frame from before the loop point was shown |
| LoopPublication.ActionAt | src/wallpaper.rs:1708-1726 | early frames are shown, the first at or past the loop point requests the loop, and everything else is dropped while that request is outstanding |
| Cover.BufferGeometry | src/desktop_wallpaper.rs:345-368 | refuses exactly the surfaces whose scaled size or buffer exceeds its ceiling |
| Cover.ScaledCovers | src/desktop_wallpaper.rs:1490-1528 | the scaled frame covers the target and touches it on one axis |
| Cover.ProportionsKept | src/desktop_wallpaper.rs:1499-1512 | the scaled size has the proportions of the frame, up to one rounded division |
| Cover.NothingIsStretched | src/desktop_wallpaper.rs:1499-1520 | the same step across and down moves equally far through the frame, up to rounding |
| Cover.ColoursKept | src/desktop_wallpaper.rs:1521-1526 | the word shown is the opaque ARGB word of the source's red, green and blue |
| Cover.FallbackColour | src/desktop_wallpaper.rs:1490-1496 | the fallback is one opaque colour |
| Cover.CropIsCentred | src/desktop_wallpaper.rs:1490-1528 | the two crop margins differ by at most one scaled pixel |
| Cover.SampleInside | src/desktop_wallpaper.rs:1490-1528 | every sampled coordinate is inside the source, so the clamp never changes it |
| Cover.SampleMonotone | src/desktop_wallpaper.rs:1490-1528 | sampled coordinates never go backwards |
| Cover.MultipleReplicates | src/desktop_wallpaper.rs:1490-1528 | a target k times the frame samples each source coordinate k times, uncropped |
| Cover.SquaresOfCopies | src/desktop_wallpaper.rs:1490-1528 | a target k times the frame shows every source pixel as a k by k block |
| Cover.RenderCover | src/desktop_wallpaper.rs:1490-1528 | every target pixel is written opaque: the sampled source pixel, or the fallback colour |
| Presentation.PresentationState.TakeAction | src/desktop_wallpaper.rs:126-151 | a pass consumes a ready frame and renders, rearms or idles |
| Presentation.PresentationState.NoteRender | src/desktop_wallpaper.rs:157-162 | a committed frame clears every redraw and keeps or takes a pending callback |
| Presentation.EventKeeps | src/desktop_wallpaper.rs:99-170 | every event and maintenance pass keeps the callback books |
| Presentation.RunKeeps | src/desktop_wallpaper.rs:846-975 | at most one callback is outstanding, held exactly while a frame is pending and never beside a ready frame; during a transition an enabled surface always has something that brings it back |
| Presentation.RedrawIsServed | src/desktop_wallpaper.rs:1196-1281 | a due redraw of a configured surface is rendered by the next pass unless a callback is pending, and a transition then has its callback |
| Presentation.GeometryIsServed | src/desktop_wallpaper.rs:109-151 | new geometry is rendered by the next pass even while a callback is pending or after an error |
| Presentation.RedrawIsNotLost | src/desktop_wallpaper.rs:846-975 | without a free buffer a redraw stays due; an error disables the surface instead |
| Presentation.QuietWhenNothingIsDue | src/desktop_wallpaper.rs:60-68 | with nothing due and no transition a pass renders nothing and asks for nothing |
| Presentation.TransitionRearms | src/desktop_wallpaper.rs:126-155 | during a transition a frame without new pixels only asks for the next callback |
| Presentation.DisabledStaysQuiet | src/desktop_wallpaper.rs:115-170 | over every run, a disabled surface asks for nothing until its geometry changes |

## Left out

- libheif, moxcms, the property-list reader, GStreamer, Wayland, iced, zbus and PAM: their bodies are not part of this model.
- Texts of prompts and notices, focus, menus, previews and views: no phase or task depends on them. Preview runs close without the closing protocol.
- Wallpaper and renderer messages of the login screen: they change neither phase, conversation, power state nor greetd requests.
- Attempts are unbounded numbers: wrap-around at 2^64 is not modelled.
- Memory ordering weaker than sequential consistency, and threads inside one lock section.
- Playback, solar positions, session-lock, decode scheduling: their starts and ends are events of `Presentation` and `LoopPublication`.
- The XML property list and XMP walks: their meaning lies in the XML reader.
- Buffer reuse on a surface: a render pass may find no free buffer, which `Presentation` takes as an outcome.
- Stall monitoring and retries of the video pipeline, posters, diagnostics, file opening, output selection and location services.
- Capacity of the input buffer: `Conversation` models its contents, not that it is never reallocated.
