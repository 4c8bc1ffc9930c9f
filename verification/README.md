# kdumptool core in Dafny

This project models four files of `kdumptool`, the helper program of the
kdump crash-dump service:

- `kdumptool/process.cc` — `SubProcess` spawns a child with up to three
  pipes wired to its standard streams. `MultiplexIO` is a `poll(2)` wrapper
  that counts its active descriptors. `ProcessFilter::execute` runs a child,
  feeds its stdin from an input stream and copies its stdout/stderr into
  output streams, one buffer per wake-up, then returns `WEXITSTATUS`.
- `kdumptool/calibrate.cc` — the crashkernel reservation estimate. It adds
  the kernel, initramfs, framebuffer, slab caches and user space, scales the
  total for dirty pages, hash tables and the memory map, and falls back to a
  per-architecture default when the inputs are unusable. It also parses
  `/sys/devices/system/cpu/online|offline`, `/sys/class/graphics/fb*` and
  `/proc/slabinfo`.
- `kdumptool/findkernel.cc` — the search for a kdump kernel and its initrd
  under `/boot`.
- `kdumptool/fileutil.cc` — `mkdir` (also recursive), `pathconcat`, and
  `mount`/`umount`/`nfsmount` through external commands.

System calls and external commands are not executed. Their results are
parameters of the model:

- pipe, fork, poll, read, write, waitpid and kill outcomes;
- a "script" of rounds for the transfer loop;
- the set of existing paths and the refused `mkdir` calls;
- the exit codes and outputs of `mount`/`umount`/`showmount`;
- file contents, given as `FileContent`.

Where the source updates an object in place, the model uses a `class`:

- `SubProcess`, with its pipe map and pid;
- `MultiplexIO`, with its poll entries and active count;
- `ProcessFilter`, with its streams;
- `SlabInfos`, with its cache map;
- `FileUtil.FileSystem`, with the directory set that `mkdir` grows.

Loops become methods proved against specification functions:

- the CPU-list counter;
- the framebuffer sum;
- the slab sum;
- the recursive `mkdir`;
- the transfer loop.

The libstdc++ stream extraction that calibrate relies on is modelled in
`StdStream.dfy`: `>>` into an unsigned long, a char and a string, plus
`getline`, `strtoul` and `find`.

## Model

| member | source | states |
|---|---|---|
| `Process.NewPipeInfo` | kdumptool/process.cc:100 | a new pipe entry has the requested direction and both descriptors closed |
| `Process.CloseParent` | kdumptool/process.cc:52-59 | closes only the parent end (sets it to -1), leaves direction and child end alone, and is a no-op on a closed end |
| `Process.CloseChild` | kdumptool/process.cc:62-69 | closes only the child end, leaves direction and parent end alone, and is a no-op on a closed end |
| `Process.Close` | kdumptool/process.cc:44-49 | afterwards both ends are closed and the direction is kept; a closed pipe is unchanged |
| `Process.CloseIdempotent` | kdumptool/process.cc:44-69 | closing twice equals closing once, for each end and for both; closing child then parent equals `close()` |
| `Process.AttachPipe` | kdumptool/process.cc:175-181 | ParentToChild gives the parent the write end and the child the read end; ChildToParent gives the reverse |
| `Process.SetThenGet` | kdumptool/process.cc:95-118 | `getPipeDirection` after `setPipeDirection` returns the direction set, other keys are untouched, and a new entry is closed |
| `Process.SetDirectionIdempotent` | kdumptool/process.cc:95-108 | setting the same direction twice equals setting it once |
| `Process.CloseAllParents` | kdumptool/process.cc:133-138 | same keys; every entry has its parent end closed |
| `Process.CloseAllChildren` | kdumptool/process.cc:141-146 | same keys; every entry has its child end closed |
| `Process.SubProcess.constructor` | kdumptool/process.cc:72-74 | no pipes, no process, kill signal SIGKILL |
| `Process.SubProcess.CheckSpawned` | kdumptool/process.cc:87-92 | fails with "no subprocess" exactly when there is no pid |
| `Process.SubProcess.SetPipeDirection` | kdumptool/process.cc:95-108 | `None` erases the key; any other direction replaces the entry with a closed pipe and adds the key to the key set; every other key keeps its entry |
| `Process.SubProcess.GetPipeDirection` | kdumptool/process.cc:111-118 | an unknown key gives `None`, a known key gives its direction |
| `Process.SubProcess.GetPipeFD` | kdumptool/process.cc:121-130 | an unknown key gives out_of_range (iff); a known key gives the parent descriptor |
| `Process.SubProcess.CloseParentFds` | kdumptool/process.cc:133-138 | the pipe map becomes the map with every parent end closed; pid is unchanged |
| `Process.SubProcess.CloseChildFds` | kdumptool/process.cc:141-146 | the pipe map becomes the map with every child end closed; pid is unchanged |
| `Process.SubProcess.CloseBoth` | kdumptool/process.cc:183-186 | the catch handler leaves every pipe fully closed |
| `Process.SubProcess.SetupPipes` | kdumptool/process.cc:157-187 | succeeds iff every pipe has a valid direction and pipe(2) succeeds for it; on success ends are assigned by direction; on failure all pipes are closed and the error is the one of the smallest failing key (std::map order) |
| `Process.SubProcess.Spawn` | kdumptool/process.cc:149-225 | a pipe error leaves everything closed with that error; a fork failure closes everything and reports the errno; the parent keeps only its pipe ends and records the pid; the child branch is reported as such |
| `Process.SubProcess.Kill` | kdumptool/process.cc:228-238 | no process gives "no subprocess"; a failing kill(2) gives a system error; succeeds iff there is a pid and kill(2) succeeds |
| `Process.SubProcess.Wait` | kdumptool/process.cc:241-264 | no process, a waitpid error and a different reaped pid are three distinct errors; success iff the expected pid was reaped, and then it returns the status and clears the pid |
| `Process.CountActiveUpdate` | kdumptool/process.cc:297-302 | replacing one entry changes the active count by exactly its own activity change |
| `Process.FirstCompleted` | kdumptool/process.cc:310-312 | the attempt `monitor` acts on is the first one not interrupted by EINTR |
| `Process.MultiplexIO.constructor` | kdumptool/process.cc:270-273 | no entries and no active descriptors |
| `Process.MultiplexIO.Add` | kdumptool/process.cc:276-287 | appends the entry, returns its index, and counts it active iff its fd is non-negative |
| `Process.MultiplexIO.At` | kdumptool/process.cc:290-294 | `at()` returns the entry in range and out_of_range otherwise |
| `Process.MultiplexIO.Deactivate` | kdumptool/process.cc:297-302 | sets the entry's fd to -1 and decrements the active count iff it was active; the count keeps matching the entries |
| `Process.MultiplexIO.Active` | kdumptool/process.cc:381 | returns the number of entries with fd >= 0; it is zero iff every entry is inactive |
| `Process.MultiplexIO.Monitor` | kdumptool/process.cc:305-318 | EINTR attempts are retried; the first other error is a system error; otherwise revents are delivered (zero for fd < 0) and the ready count is returned; the active count is unchanged |
| `Process.ActiveUnchangedByEvents` | kdumptool/process.cc:305-318 | entries with the same active descriptors have the same active count |
| `Process.ReadBlock` | kdumptool/process.cc:388-395 | reads the next min(BUFSIZ, remaining) bytes of the input stream; reports EOF iff fewer than BUFSIZ came; a failing stream is an error |
| `Process.FeedPreserved` | kdumptool/process.cc:385-405 | one stdin wake-up keeps "sent bytes ++ unsent buffer = bytes read from the input"; the input only moves forward |
| `Process.Refill` | kdumptool/process.cc:387-395 | the buffer underflow step: with bytes still pending the feed is unchanged; otherwise the buffer holds the next block of the stream (cursor 0, EOF from that read) and the stream has moved past it; it fails iff the buffer is drained and the stream has failed, with that read error; what the child received is untouched |
| `Process.RefillPreserved` | kdumptool/process.cc:387-395 | the refill keeps "sent bytes ++ unsent buffer = bytes read from the input" and only moves the input forward |
| `Process.SendPreserved` | kdumptool/process.cc:396-400 | one write(2) of the unsent buffer keeps that invariant and never moves the input |
| `Process.FeedComplete` | kdumptool/process.cc:396-405 | at EOF, everything read has been sent iff the buffer is drained |
| `Process.OnWritable` | kdumptool/process.cc:385-406 | the stdin handler fails iff the buffer is drained and the input stream has failed (cannot read stdin) or write(2) fails (cannot write stdin, with its errno); on success the cursor moves by exactly the bytes write(2) accepted, capped at what is buffered, and those buffered bytes are appended to what the child received; with bytes still buffered the stream and buffer are untouched, otherwise the buffer is first refilled with the next block of the stream; the handler is done iff the stream is at EOF |
| `Process.OnReadable` | kdumptool/process.cc:408-424 | a read error gives a system error (iff); a zero-length read or a bare POLLHUP closes the stream; otherwise the bytes read are forwarded |
| `Process.FedIsPrefix` | kdumptool/process.cc:385-405 | the bytes sent to the child are a prefix of the input from its starting position |
| `Process.ExitStatus` | kdumptool/process.cc:446 | `WEXITSTATUS` is below 256 |
| `Process.ExitStatusOfExit` | kdumptool/process.cc:446 | the status word of `exit(code)` decodes to `code` |
| `Process.ExitStatusOfWord` | kdumptool/process.cc:446 | bits 8-15 decode to the exit code whatever the other bits hold |
| `Process.HandleStdin` | kdumptool/process.cc:385-406 | without POLLOUT nothing happens; otherwise the stdin handler runs once (refill, then write(2)) and keeps the feed invariant, also when it raises; an exception is `OnWritable`'s error, leaves the pipes and poll entries alone and hands back the refilled feed when the refill happened, since the stream has already read that block; once the stream is at EOF it erases the stdin pipe and deactivates the entry (exactly then); no other poll entry changes; with the events `monitor` delivered it does exactly what `FeedRound` says |
| `Process.HandleOutput` | kdumptool/process.cc:408-442 | without POLLIN/POLLHUP nothing happens; otherwise it fails iff `OnReadable` fails, with its error, returns the chunk read(2) gave (nothing, or exactly the bytes of this round's read), and closes the entry iff the stream ended; no other poll entry changes; with the events `monitor` delivered it does exactly what `DrainRound` says |
| `Process.DrainRound` | kdumptool/process.cc:408-442 | what the stdout/stderr handler passes on in one round: nothing, or exactly the bytes read(2) returned; a closed pipe passes nothing and stays closed; a pipe that passes bytes stays open |
| `Process.DrainLog` | kdumptool/process.cc:381-443 | the chunks passed on from one pipe over the first n rounds: one per round |
| `Process.FeedRound` | kdumptool/process.cc:385-406 | what the stdin handler makes of one round: the feed is unchanged without POLLOUT; with POLLOUT it is `OnWritable`'s step, or, when the handler raises, the feed after `Refill` (unchanged if the refill itself failed), with the pipe left open; whenever the buffer was drained and the stream is readable, the stream has moved past the next block, even if write(2) then fails; a closed pipe stays closed; a pipe that closes has read the stream to EOF |
| `Process.FirstWritableRoundReads` | kdumptool/process.cc:387-399 | the first round in which stdin is writable reads the stream's first block before write(2): the stream is past that block whether the write succeeds or fails, and a failed write leaves the pipe open |
| `Process.FeedRoundPreserved` | kdumptool/process.cc:385-406 | one round of the stdin handler, raising or not, keeps the feed invariant and only moves the input forward |
| `Process.FeedLogInv` | kdumptool/process.cc:381-406 | after any number of rounds (`FeedLog`), what the child received followed by what is still buffered is the input from its first position up to the read position; the input's bytes never change; a closed stdin pipe has read its stream to EOF |
| `Process.DrainLogReads` | kdumptool/process.cc:408-442 | every chunk in the log is nothing or exactly the bytes read(2) returned in its round |
| `Process.DrainLogStaysClosed` | kdumptool/process.cc:408-424 | once a pipe is closed it stays closed and passes nothing in every later round |
| `Process.HandleOutputs` | kdumptool/process.cc:408-442 | the stdout then the stderr handler: each output chunk is what `DrainRound` gives for its pipe, except that a chunk cut short by an exception is empty; without an exception each pipe is open iff `DrainRound` left it open; entries of other streams are untouched |
| `Process.AdvanceRound` | kdumptool/process.cc:381-443 | if the streams matched the rounds so far, the input moved by the next `FeedRound` step and each output grew by the next round's `DrainRound` chunk (or, after an exception, possibly by nothing), they match one more round: the input is where `FeedLog` puts it and what was fed is `FeedLog`'s sent bytes, and each output = initial content ++ its logged chunks |
| `Process.Connect` | kdumptool/process.cc:366-375 | registers stdin for POLLOUT and stdout/stderr for POLLIN, in that order, with the parent descriptors |
| `Process.Pump` | kdumptool/process.cc:382-442 | one poll round and the three handlers keep the feed invariant; the feed afterwards is the `FeedRound` step for the events of the first completed poll(2) (after a write(2) failure, the refilled feed), and the stdin entry is open iff that step left the pipe open (also when an exception ends the round); each output chunk is the `DrainRound` chunk of its pipe (empty only when an exception cut it short), and without an exception each output entry is open iff its pipe stays open |
| `Process.HandleRound` | kdumptool/process.cc:384-442 | with the events `monitor` delivered: the stdin handler does the `FeedRound` step, an exception included, and leaves its entry open iff the step did; each output does what `DrainRound` says, a chunk cut short by an exception being empty |
| `Process.Step` | kdumptool/process.cc:381-443 | one loop iteration appends exactly one chunk per output to the log; the feed afterwards is `FeedLog` of one more round, and the stdin entry is open iff `FeedLog` says so; the streams stay `Advanced` (what the child received is `FeedLog`'s, every logged chunk is the `DrainLog` chunk of its round, the last one possibly missing after an exception) and, without an exception, each output entry is open iff `DrainLog` says its pipe is open after the round |
| `Process.RunRounds` | kdumptool/process.cc:381-443 | the loop keeps the streams `Advanced` over the rounds it ran, the input and what the child received being those of `FeedLog` (after an exception, the input is past any block the failing round read); if it ends with every descriptor inactive and no exception, the input was read to its end, `FeedLog` says stdin closed and each output pipe was read until `DrainLog` says it closed; if the rounds run out first, every round was run |
| `Process.Launch` | kdumptool/process.cc:357-364 | pipes are configured for exactly the streams that are set (the key set is stdin, stdout, stderr for those that are set and nothing else); in the parent each of them has an open parent end |
| `Process.ProcessFilter.constructor` | kdumptool/process.cc:324-327 | no streams set |
| `Process.ProcessFilter.SetStdin` | kdumptool/process.cc:330-334 | sets only the input stream |
| `Process.ProcessFilter.SetStdout` | kdumptool/process.cc:337-341 | sets only the output stream |
| `Process.ProcessFilter.SetStderr` | kdumptool/process.cc:344-348 | sets only the error stream |
| `Process.ProcessFilter.Transfer` | kdumptool/process.cc:377-443 | loops while any descriptor is active; the caller's streams are `Advanced` over the logged rounds (the input is where `FeedLog` puts it, also after an exception that followed a refill, and the child received exactly `FeedLog`'s bytes; each output = old content ++ the `DrainLog` chunks of its pipe, nothing dropped or reordered); `Ok(true)` means every descriptor closed, the input is at its end, `FeedLog` says stdin closed and every output pipe closed; an exception may cut only the last round short |
| `Process.ProcessFilter.Execute` | kdumptool/process.cc:351-447 | the child's exit code is `WEXITSTATUS` of the reaped status; the streams are `Advanced` over the rounds on the poll entries `connect` assigned (the child received exactly the `FeedLog` bytes of the input, in order, and the caller's input is left where `FeedLog` puts it, past any block read before a failing write(2); each output = old content ++ exactly the chunks read(2) returned, in order); on exit the input is at its end, stdin was closed and every output pipe was read until it closed; only an exception leaves the last round incomplete |
| `Calibrate.ShrRoundUpIsCeiling` | kdumptool/calibrate.cc:40 | `ShrRoundUp(n, k)` (shr_round_up) is the least q with q * 2^k >= n |
| `Calibrate.ShrRoundUpMiB` | kdumptool/calibrate.cc:792 | rounding a whole number of MiB expressed in KiB returns that number |
| `Calibrate.MemmapGranule` | kdumptool/calibrate.cc:157-171 | the memory-map granule is positive |
| `Calibrate.S390MaskSetsLowBits` | kdumptool/calibrate.cc:161-165 | the s390 mask `(1 << (SECTION_SIZE_BITS - PAGE_SHIFT - 10)) - 1` sets the low 3 bits |
| `Calibrate.S390XMaskSetsLowBits` | kdumptool/calibrate.cc:167-171 | the s390x mask sets the low 6 bits |
| `Calibrate.AlignMemmapRoundsUp` | kdumptool/calibrate.cc:157-171 | `AlignMemmap` (align_memmap) rounds up to a whole granule, by less than one granule |
| `Calibrate.BitmapKb` | kdumptool/calibrate.cc:738-743 | the bitmap estimate is capped at its maximum and otherwise covers one bit per page |
| `Calibrate.UserKb` | kdumptool/calibrate.cc:733-747 | user space is at least the base size; without makedumpfile it is the base plus network; with it, it is bounded by base, network, bitmap and page-table costs |
| `Calibrate.DirtyStep` | kdumptool/calibrate.cc:758-762 | the dirty-page scaling never decreases the requirement |
| `Calibrate.HashStep` | kdumptool/calibrate.cc:770-772 | adding kernel hash tables never decreases the requirement |
| `Calibrate.MemmapScaled` | kdumptool/calibrate.cc:776-777 | the memory-map scaling never decreases the requirement |
| `Calibrate.MemmapStepCovers` | kdumptool/calibrate.cc:775-780 | the aligned memory-map step covers the requirement and the unaligned map |
| `Calibrate.MemmapStepWholeGranules` | kdumptool/calibrate.cc:775-780 | the added memory map is a whole number of granules of struct pages |
| `Calibrate.SlabExtraRemove` | kdumptool/calibrate.cc:703-713 | the slab sum over the caches is order-independent: any one cache can be taken out first |
| `Calibrate.SlabExtraOnlyConstant` | kdumptool/calibrate.cc:703-712 | only `Acpi-*` and `ftrace_*` caches count: without them the sum is zero |
| `Calibrate.SlabExtraAdds` | kdumptool/calibrate.cc:703-712 | a constant cache adds numSlabs * pagesPerSlab * pagesize / 1024 |
| `Calibrate.AddSlabs` | kdumptool/calibrate.cc:703-713 | the slab loop computes the slab sum |
| `Calibrate.CpuError` | kdumptool/calibrate.cc:718-729 | counting CPUs fails iff the architecture cannot reduce CPUs and either CPU list fails to parse |
| `Calibrate.CountCpus` | kdumptool/calibrate.cc:718-729 | returns that error, and otherwise online + offline CPUs |
| `Calibrate.RuntimeEstimate` | kdumptool/calibrate.cc:679-749 | computes the run-time requirement: kernel, initramfs, dynamic data, framebuffer, slab and user space |
| `Calibrate.FramebufferEstimate` | kdumptool/calibrate.cc:690-696 | returns `FramebufferKb`: the total size in KiB of the framebuffers listed in /sys/class/graphics, or the default when the listing or any device fails |
| `Calibrate.SlabEstimate` | kdumptool/calibrate.cc:698-716 | computes the slab sum of `/proc/slabinfo`, or 0 when it cannot be read |
| `Calibrate.UserEstimate` | kdumptool/calibrate.cc:732-749 | computes the user-space estimate |
| `Calibrate.Estimate` | kdumptool/calibrate.cc:671-786 | returns `Required`: the required size, or the RAM-size or CPU-count error that ends the estimate |
| `Calibrate.Required` | kdumptool/calibrate.cc:671-786 | the estimate fails iff the RAM size is unknown or counting CPUs fails; otherwise it is at least the boot requirement |
| `Calibrate.BootEstimate` | kdumptool/calibrate.cc:679-684 | computes the boot-time requirement: kernel plus compressed and uncompressed initramfs |
| `Calibrate.ScaleEstimate` | kdumptool/calibrate.cc:751-780 | computes the scaled requirement |
| `Calibrate.AddMemmap` | kdumptool/calibrate.cc:775-780 | computes the memory-map step |
| `Calibrate.Execute` | kdumptool/calibrate.cc:663-793 | prints the reservation in MiB: the rounded-up estimate, or the architecture default on error |
| `Calibrate.RequiredCoversNeeds` | kdumptool/calibrate.cc:782-785 | a successful estimate covers both the boot requirement and the run-time requirement plus the load offset |
| `Calibrate.ScaleKbCovers` | kdumptool/calibrate.cc:751-780 | scaling never gives less than the run-time requirement plus the load offset |
| `Calibrate.RequiredIsMax` | kdumptool/calibrate.cc:782-785 | when the RAM size is known and counting CPUs does not fail, the estimate is the larger of the scaled and the boot requirement |
| `Calibrate.ErrorFallsBack` | kdumptool/calibrate.cc:787-792 | a RAM-size error, or a CPU-list error where CPUs cannot be reduced, gives exactly the default reservation |
| `Calibrate.ReservationCovers` | kdumptool/calibrate.cc:792 | the reservation in MiB covers the estimate and exceeds it by less than 1 MiB |
| `Calibrate.FramebufferFallsBack` | kdumptool/calibrate.cc:690-696 | a failing directory listing or a failing device gives the default framebuffer size, which is 0 on s390 |
| `SystemCpu.CountItem` | kdumptool/calibrate.cc:295-306 | one pass of the CPU-list loop consumes input and advances the parse exactly like the specification |
| `SystemCpu.CountFrom` | kdumptool/calibrate.cc:295-308 | the CPU-list parse fails only with "wrong number format" or "wrong delimiter" |
| `SystemCpu.CpuCount` | kdumptool/calibrate.cc:280-315 | a file that cannot be opened gives a system error with its errno; a readable file fails only with "wrong number format" or "wrong delimiter" |
| `SystemCpu.Count` | kdumptool/calibrate.cc:280-315 | the CPU-list loop computes the specified count or error |
| `SystemCpu.CountListAt` | kdumptool/calibrate.cc:295-308 | a well-formed list suffix counts every single CPU once and every range a-b as b - a + 1 |
| `SystemCpu.CpuCountOfList` | kdumptool/calibrate.cc:280-315 | a CPU list "a,b-c,...\n" counts to the total of its items |
| `SystemCpu.CountRejectsDelimiter` | kdumptool/calibrate.cc:303-304 | a number followed by a character that is not a digit, a space, '-' or ',' is a "wrong delimiter" error |
| `SystemCpu.CountRejectsNumber` | kdumptool/calibrate.cc:307-308 | text that does not start with a number is a "wrong number format" error |
| `Framebuffers.DirFilterAccepts` | kdumptool/calibrate.cc:414-421 | `DirFilterTest` (DirFilter::test) accepts exactly the names "fb" followed by a (possibly signed, space-led) number |
| `Framebuffers.DirFilterDevices` | kdumptool/calibrate.cc:414-421 | "fbN" is accepted; "fb" and "fb0a" are not |
| `Framebuffers.FramebufferSize` | kdumptool/calibrate.cc:347-381 | succeeds iff both files open and parse; errors are "cannot open" or "invalid content" |
| `Framebuffers.VirtualHeightOf` | kdumptool/calibrate.cc:359-364 | "width,height\n" parses to height |
| `Framebuffers.StrideBytesOf` | kdumptool/calibrate.cc:372-377 | "stride\n" parses to stride |
| `Framebuffers.FramebufferSizeOf` | kdumptool/calibrate.cc:347-381 | a well-formed device has size stride * height |
| `Framebuffers.FramebufferSizeRejects` | kdumptool/calibrate.cc:363-364 | a width followed by anything but ',' is invalid content |
| `Framebuffers.ListFramebuffers` | kdumptool/calibrate.cc:438 | the listed devices are exactly the entries the filter accepts |
| `Framebuffers.FbTotalFirstError` | kdumptool/calibrate.cc:432-450 | `FbTotal` fails iff some device fails, and then with the error of the first failing device |
| `Framebuffers.FbDirTotalFails` | kdumptool/calibrate.cc:432-450 | `FbDirTotal` fails iff listing the directory fails (with that error) or some listed framebuffer fails |
| `Framebuffers.FramebuffersSize` | kdumptool/calibrate.cc:432-450 | returns `FbDirTotal`: the listing error, or the summing loop's total or first device error |
| `SlabInfos.ParseSlabInfo` | kdumptool/calibrate.cc:515-543 | a parsed line has a word as name and is a comment iff the name starts with '#'; failure is "invalid slabinfo line" |
| `SlabInfos.SlabInfoOfLine` | kdumptool/calibrate.cc:515-543 | a slabinfo line built from a record (with any tunables before ": slabdata") parses back to that record |
| `SlabInfos.CommentOfLine` | kdumptool/calibrate.cc:519-527 | a line whose first word starts with '#' is a comment |
| `SlabInfos.SlabDataAt` | kdumptool/calibrate.cc:533-542 | `SlabData` finds the first " : slabdata " mark and reads the two numbers after it |
| `SlabInfos.ParseVersion` | kdumptool/calibrate.cc:608-628 | failure is "invalid version" |
| `SlabInfos.ParseVersionOf` | kdumptool/calibrate.cc:620-628 | "slabinfo - version: M.m" parses to (M, m) |
| `SlabInfos.ParseVersionRejects` | kdumptool/calibrate.cc:622-624 | a version without ".minor" is rejected |
| `SlabInfos.ReadHeader` | kdumptool/calibrate.cc:606-632 | errors are "cannot open", "invalid version" or "unsupported version"; success leaves the stream inside the file |
| `SlabInfos.ReadHeaderOf` | kdumptool/calibrate.cc:612-632 | a version-2 header is accepted with the stream just after it; any other major version is unsupported |
| `SlabInfos.StoreAppend` | kdumptool/calibrate.cc:635-642 | `Store`, one line further: the line adds its cache under its name, skips a comment, or stops with the parse error |
| `SlabInfos.StoreNames` | kdumptool/calibrate.cc:635-642 | every stored cache is a slab keyed by its own name, and earlier keys stay |
| `SlabInfos.RecordsOfLines` | kdumptool/calibrate.cc:634-635 | `Records`, the getline loop, returns exactly the lines of the body |
| `SlabInfos.SlabFileRecords` | kdumptool/calibrate.cc:606-642 | a version-2 file's body is read back as its lines |
| `SlabInfos.SlabMap` | kdumptool/calibrate.cc:606-645 | the resulting map is keyed by cache name and holds only slabs |
| `SlabInfos.SlabInfos.constructor` | kdumptool/calibrate.cc:562-565 | starts with no caches |
| `SlabInfos.SlabInfos.GetInfo` | kdumptool/calibrate.cc:606-645 | a header error leaves the map unchanged; otherwise the map is extended line by line up to the first bad line, whose error is returned |
| `FileUtil.PathConcat` | kdumptool/fileutil.cc:111-115 | the result is a, a '/', then b |
| `FileUtil.MkdirStep` | kdumptool/fileutil.cc:47-53 | mkdir succeeds iff the directory exists already or is not refused; success adds it; failure reports the errno |
| `FileUtil.MkdirAllCreates` | kdumptool/fileutil.cc:55-71 | `MkdirAll`, the recursive loop, only adds its targets; it succeeds iff no missing target is refused, and then all targets exist; a failure names a refused target |
| `FileUtil.StripTrailingSlashes` | kdumptool/fileutil.cc:57-59 | the result is a prefix with no trailing '/', and only '/' was removed |
| `FileUtil.SlashesReadBeforeString` | kdumptool/fileutil.cc:57-59 | on a string of only '/' (or the empty string) `StripAsWritten`, the loop as written, reads before the string |
| `FileUtil.StripAgrees` | kdumptool/fileutil.cc:57-59 | wherever `StripAsWritten` is defined, it agrees with the corrected loop |
| `FileUtil.NextSlash` | kdumptool/fileutil.cc:63 | `find('/', from)` returns a position at or after `from`, inside the string, holding '/' |
| `FileUtil.NextSlashIsFirst` | kdumptool/fileutil.cc:63 | no '/' at or after `from` comes before the one found |
| `FileUtil.TargetsFrom` | kdumptool/fileutil.cc:61-71 | the last directory created is the full path |
| `FileUtil.TargetsCoverSlashes` | kdumptool/fileutil.cc:61-71 | the prefix before every '/' after the first character is created |
| `FileUtil.TargetsArePrefixes` | kdumptool/fileutil.cc:61-71 | every directory created is a prefix of the path |
| `FileUtil.TargetsAreSlashPrefixes` | kdumptool/fileutil.cc:61-71 | all but the last target end just before a '/', in increasing length |
| `FileUtil.MkdirParentsExist` | kdumptool/fileutil.cc:55-71 | after a successful recursive mkdir the directory and all of its parents exist |
| `FileUtil.FileSystem.Mkdir` | kdumptool/fileutil.cc:42-73 | non-recursive is one mkdir; recursive creates every slash prefix of the path without trailing slashes, stopping at the first refused one |
| `FileUtil.FileSystem.MkdirOne` | kdumptool/fileutil.cc:47-53 | one mkdir(2) call on the directory set |
| `FileUtil.FileSystem.MkdirLevels` | kdumptool/fileutil.cc:61-71 | the level loop performs exactly the mkdir calls of `MkdirAll` over the targets, stopping at the first refusal |
| `FileUtil.FileSystem.MkdirLevel` | kdumptool/fileutil.cc:63-69 | one pass: with a slash left it makes the prefix before it and what remains is the run past that slash; with none left, or on a refusal, the run is over with the run's outcome |
| `FileUtil.OptionArgsShape` | kdumptool/fileutil.cc:173-177 | each mount option becomes "-o", option, in order |
| `FileUtil.MountArgsShape` | kdumptool/fileutil.cc:173-183 | the mount arguments are the option pairs, then "-t", fs, device, mount point |
| `FileUtil.BuildMountArgs` | kdumptool/fileutil.cc:167-183 | builds the specified argument list |
| `FileUtil.Mount` | kdumptool/fileutil.cc:163-195 | fails with "mount failed" iff the mount command exits non-zero |
| `FileUtil.Umount` | kdumptool/fileutil.cc:198-215 | fails with "umount failed" iff the umount command exits non-zero |
| `FileUtil.FirstExport` | kdumptool/fileutil.cc:146-153 | finds the first export that is a prefix of the directory, or none |
| `FileUtil.NfsMountResult` | kdumptool/fileutil.cc:118-160 | errors are showmount, not-exported or mount failures; success gives a non-empty listed export that is a prefix of the directory |
| `FileUtil.NfsMountFirstExport` | kdumptool/fileutil.cc:145-158 | on success showmount succeeded, the export is the first matching line, and `host:export` was mounted |
| `FileUtil.NfsMount` | kdumptool/fileutil.cc:118-160 | computes the specified NFS mount result |
| `FindKernel.KdumpKernelNames` | kdumptool/findkernel.cc:248-253 | every name followed by "-kdump" is a kdump kernel, and a kdump kernel is its own prefix followed by "-kdump" |
| `FindKernel.IsKdumpKernel` | kdumptool/findkernel.cc:248-253 | an image is a kdump kernel iff its name ends in "-kdump" |
| `FindKernel.FindInitrd` | kdumptool/findkernel.cc:256-269 | the initrd is `dir/initrd-<image>`, with "-kdump" appended unless already there, so it always names a kdump initrd |
| `FindKernel.Candidate` | kdumptool/findkernel.cc:169-173 | a candidate path starts with "/boot/" and names something inside it |
| `FindKernel.FirstExisting` | kdumptool/findkernel.cc:165-182 | returns an existing candidate, and the empty string iff no candidate exists |
| `FindKernel.FirstExistingIsFirst` | kdumptool/findkernel.cc:165-182 | the candidate returned is the first existing one in image-name order |
| `FindKernel.FindForVersion` | kdumptool/findkernel.cc:158-183 | a kernel found exists and starts with "/boot/"; the result is empty iff no image name's candidate exists |
| `FindKernel.FindForVersionExists` | kdumptool/findkernel.cc:158-183 | a kernel found for a version exists, starts with "/boot/" and is the candidate of one of the image names; none is found iff no image name's candidate exists |
| `FindKernel.SuitableStrictness` | kdumptool/findkernel.cc:104-155 | non-strict: kdump kernel or relocatable; strict also rejects >= 1024 CPUs on x86 and any PREEMPT_RT setting |
| `FindKernel.Suitable` | kdumptool/findkernel.cc:104-155 | a suitable image is a kdump kernel or relocatable; a strictly suitable one also has fewer than 1024 CPUs on x86 and no PREEMPT_RT setting |
| `FindKernel.Split` | kdumptool/findkernel.cc:195 | at least one field, none containing the separator |
| `FindKernel.JoinSplit` | kdumptool/findkernel.cc:195-197 | joining the split fields gives the string back |
| `FindKernel.SplitJoin` | kdumptool/findkernel.cc:195-197 | splitting joined separator-free fields gives the fields back |
| `FindKernel.KdumpVersionReplacesLast` | kdumptool/findkernel.cc:194-197 | the kdump release replaces the last '-' field with "kdump" |
| `FindKernel.KdumpVersion` | kdumptool/findkernel.cc:194-197 | the kdump release always ends in "kdump" |
| `FindKernel.Attempts` | kdumptool/findkernel.cc:194-242 | the search makes six attempts |
| `FindKernel.FirstSuitable` | kdumptool/findkernel.cc:186-245 | returns the image of a successful attempt, and the empty string iff none succeeds |
| `FindKernel.FirstSuitableIsFirst` | kdumptool/findkernel.cc:186-245 | the image returned is that of the first successful attempt |
| `FindKernel.FindKernelAuto` | kdumptool/findkernel.cc:186-245 | a non-empty result is the image of one of the six attempts, and that attempt succeeds; the result is empty iff none of them succeeds |
| `FindKernel.FindKernelAutoFinds` | kdumptool/findkernel.cc:186-245 | a non-empty automatic result exists and is suitable; a strict-suitable kdump kernel of the running release is always chosen |
| `FindKernel.Execute` | kdumptool/findkernel.cc:60-101 | reports the kernel for the given version, or the automatic one, together with its initrd |
| `FindKernel.ExecuteOutcome` | kdumptool/findkernel.cc:60-101 | exits -1 iff no kernel was found or a given version is unsuitable; a found kernel exists, is suitable, and has a kdump initrd |

## Left out

- Unsigned long wrap-around in calibrate.cc is not modelled: sizes are unbounded naturals. This covers `stride * height`, the framebuffer sum and the scaling products.
- `SystemCpu.Count`: the counter is an unbounded integer. For a range `a-b` with `b < a`, the source's unsigned counter wraps; the model's value agrees with it modulo 2^64.
- `StdStream`'s `>>` into an unsigned long does not accept a leading '+' or '-' sign, which libstdc++ accepts.
- Stream `badbit` errors ("Read failed") are left out: in-memory text never sets them.
- The order of `ListDir` results and the `std::map` iteration order of slab caches are left out. The slab sum is proved order-independent.
- `sysconf`, `Util::getMemorySize`, the configuration and file contents are inputs of the model.
- Debug logging is left out, and so are messages to cout/cerr other than the value `calibrate` prints.
- Calibrate: `cpus` and `PERCPU_KB` are computed but not used by the estimate. Only the CPU-count error is modelled.
- fork, dup2, execvp, poll, kill, waitpid and pipe are not executed: their outcomes are parameters or a script of rounds.
- `Process.ProcessFilter.Execute`: a script that runs out while descriptors are still active gives the outcome `Blocked`, standing for a poll that never returns.
- The child branch after fork (closing descriptors, dup2, execvp) is left out, and so is the `SubProcess` destructor.
- KernelTool, Kconfig, `stripImageName`, the image-name list, `getArch` and `getKernelRelease` are inputs of the model. kerneltool.cc is not part of this model.
- stringutil.cc is not part of this model. `Stringutil::split` and `join` are modelled with empty fields kept.
- showmount output is given as a list of lines; `trim` and `bytes2str` are left out.
- Error message texts are reduced to `Reason` tags.
- `FileUtil::exists` is membership in the set of existing paths; `basename` and `dirname` are left out.
- The streams of `ProcessFilter` are byte sequences: an input with a position and an optional read failure, and outputs that grow.

## Findings

| source | as written | input that shows it | evidently intended | confidence | as-written member | corrected member |
|---|---|---|---|---|---|---|
| kdumptool/fileutil.cc:57-59 | the loop that strips trailing slashes reads `directory[directory.size() - 1]` without checking that the string is non-empty | `FileUtil::mkdir("/", true)` (or `""`): after the last '/' is removed, the loop reads before the string, which is undefined behaviour | stop stripping when the string is empty | not executed | `FileUtil.SlashesReadBeforeString` | `FileUtil.StripTrailingSlashes` |
