# Verified models of a virtual machine monitor's device code

This project models five parts of a virtual machine monitor in Dafny and proves what they promise.

- **The qcow2 disk image engine.** A flat virtual disk kept in clusters of a growing host file, with a
  two-level cluster map, reference counts kept the same way, write-back caches over both, and a list of
  freed clusters that may be reused only after the next flush. `QcowFiles.QcowFile`, `RefCounts.RefCount`
  and `QcowRawFiles.QcowRawFile` are the objects; `QcowImage` holds the invariant, a ledger that gives every
  host cluster one role. `QcowSteps`, `QcowDisk`, `QcowCommit`, `QcowCounting` and `QcowMapping` prove it
  transition by transition on values, so that the methods stay thin. `Journals` keeps every image the host
  file has had. On top are opening (`QcowOpens`), whole runs (`QcowRuns`), what the file shows after each single
  write of a run (`QcowCrashes`), copying (`QcowConversions`), the
  header and layout of new images (`QcowHeaders`, `QcowLayouts`), rebuilding counts (`QcowRebuilds`,
  `QcowRestores`) and creating images (`QcowCreations`); `QcowFullImages` is an image with no cluster left.
- **The AML encoder of the ACPI tables.** `AmlTerms` is the encoding as a function, `AmlWriter` the methods
  that append bytes, `AmlGrammar` a decoder that knows how many arguments a method takes, and `AmlRoundTrip`
  and `AmlResources` the proof that decoding undoes encoding.
- **PCI configuration space and MSI-X.** Base address registers and their relocation (`PciConfigs`), the
  capability list (`PciCapabilities`), the register file as arrays (`PciDevices`), and the interrupt table
  with its pending bits and routes (`MsixTables`, `MsixConfigs`).
- **The token-bucket rate limiter** (`TokenBuckets`).
- **The transmit and receive loops of the network device** (`NetQueues`).

Objects the source updates in place are classes; each method is proved against a function on values, and
the properties are proved about these functions and preserved by the methods. Clocks, the tap device, the
rate limiter's answers and the choice of which cache entry to evict are parameters or left open, so that the
results hold for every one of them.

## Model

| member | source | states |
|---|---|---|
| QcowRuns.Execute | qcow/src/qcow.rs:1417-1548 | One operation on an open image, seek, read, write, punch hole, write zeroes or flush, does to the virtual disk and the position what it would do to a flat array of bytes, and returns the same outcome; only a full host file makes it fail; the image stays valid, so no cluster is used twice and every cluster in use is counted. |
| QcowRuns.Run | qcow/src/qcow.rs:964-1548 | The same for every list of operations; each top-level table is written at most once per flush, and without discards no block that the tables on disk lead to is edited in place. Afterwards no two table entries or free lists name the same host cluster, a named one is aligned, within the file and apart from header and tables, and everything in use has a count. Without discards every image of the host file written on the way shows at each address what the file showed before the run, or what the disk has held there during the run. |
| QcowRuns.FlushAndRun | qcow/src/qcow.rs:1480-1511 | Nothing falls back behind a flush: stop after any single write to the host file in a run without discards that follows a flush, and opening the file finds at every address a byte the disk has held there since the flush. |
| QcowCrashes.StepByte | qcow/src/qcow.rs:1480-1505 | Unless it writes the L1 table or follows a discard, one write to the host file changes what opening it would show only at bytes of guest data, to what the guest writes there. |
| QcowRuns.CommitSafety | qcow/src/qcow.rs:1064-1094 | Of all images the host file has had, any two with no write of the L1 table and no discard between them lead every virtual cluster to the same data cluster. |
| QcowRuns.RunCommitSafety | qcow/src/qcow.rs:1369-1408 | In a run without discards this holds between any two images the run wrote, for as long as no L1 table is written in between. |
| QcowRuns.CountCommitSafety | qcow/src/refcount.rs:134-146 | The counts a reader finds through the refcount table on disk are the same in any two images with no write of that table between them. |
| QcowRuns.ExemptImages | qcow/src/qcow.rs:1369-1408 | An image numbered as a commit is its predecessor with one table written into it; one numbered as loosened follows a discard with no such write in between. |
| QcowRuns.FlushedMapping | qcow/src/qcow.rs:1369-1408 | After a flush the file alone maps the virtual disk as the open image does. |
| QcowRuns.FlushAndReopen | qcow/src/qcow.rs:1507-1511 | A flush followed by opening the file anew shows the same disk, and no cluster in use is offered as available. |
| QcowFiles.QcowFile.GetNewCluster | qcow/src/qcow.rs:1097-1111 | Hands out a zeroed cluster that was free or behind the end of the file, and changes nothing else; it fails exactly when there is neither. |
| QcowFiles.QcowFile.SetClusterRefcount | qcow/src/qcow.rs:1315-1367 | Terminates; the cluster has the given count, every refcount block allocated on the way has count one, all other counts are unchanged, at most one block comes free; it cannot fail if one free cluster is left and that cluster is counted in the same block. |
| QcowFiles.QcowFile.UpdateClusterAddr | qcow/src/qcow.rs:1064-1094 | Maps a data cluster; a table that is not dirty moves to a new cluster first. It fails exactly if that table is clean and no cluster is left, and then has already queued the cluster still in use. |
| QcowFullImages.FullImageFails | qcow/src/qcow.rs:1077-1085 | An image of six 512-byte clusters that satisfies the invariant, with a data cluster ready to be mapped, in which this happens: the L2 table is clean and no cluster is left. |
| QcowFiles.QcowFile.FileOffsetRead | qcow/src/qcow.rs:964-1003 | Where a guest address is stored, or that it is not; no lookup changes, whichever table the cache gives up. |
| QcowFiles.QcowFile.FileOffsetWrite | qcow/src/qcow.rs:1007-1061 | The address is mapped afterwards, all counts are set, and the virtual disk is unchanged. |
| QcowFiles.QcowFile.AppendDataCluster | qcow/src/qcow.rs:1115-1121 | A zeroed cluster with a count of one that nothing refers to yet. |
| QcowFiles.QcowFile.ReadL2Cluster | qcow/src/qcow.rs:1301-1310 | The masked table, or an error exactly if the cluster is cut off by the end of the file or some entry is compressed. |
| QcowFiles.QcowFile.Read | qcow/src/qcow.rs:1418-1444 | Fills the buffer with the bytes of the virtual disk from the position on, as far as the disk reaches, and leaves the rest of the buffer alone. |
| QcowFiles.QcowFile.Write | qcow/src/qcow.rs:1480-1505 | Overwrites exactly that range of the virtual disk. |
| QcowFiles.QcowFile.Seek | qcow/src/qcow.rs:1448-1476 | Moves to the target if it is on the disk and the arithmetic does not overflow, and is refused otherwise. |
| QcowFiles.QcowFile.DeallocateCluster | qcow/src/qcow.rs:1196-1269 | The cluster reads as zero, all others as before. |
| QcowFiles.QcowFile.DeallocateBytes | qcow/src/qcow.rs:1273-1297 | The range reads as zero as far as it lies on the disk. |
| QcowFiles.QcowFile.PunchHole | qcow/src/qcow.rs:1530-1540 | The same for a range given in 64-bit words. |
| QcowFiles.QcowFile.WriteZeroesAt | qcow/src/qcow.rs:1544-1547 | The same, reporting the whole length as written. |
| QcowFiles.QcowFile.SyncCaches | qcow/src/qcow.rs:1369-1408 | Everything in memory is on disk, nothing the guest sees changes, and the only writes of the two tables are the last ones: first the L1 table, then the refcount table, each at most once and only if dirty. |
| QcowFiles.QcowFile.Flush | qcow/src/qcow.rs:1507-1511 | The same, and the clusters freed before are available from then on. |
| RefCounts.RefCount.SetClusterRefcount | qcow/src/refcount.rs:104-150 | What one attempt does to table, cache and file, case by case: cached and dirty, cached and clean, not cached, no block yet. |
| RefCounts.RefCount.FlushBlocks | qcow/src/refcount.rs:154-166 | Every block is clean, no count changed, and only refcount block clusters were written. |
| RefCounts.RefCount.GetClusterRefcount | qcow/src/refcount.rs:185-209 | The count, from the cached block, else from disk, else zero. |
| VecCaches.Insert | qcow/src/vec_cache.rs:117-132 | The map never exceeds its capacity; one entry, any entry, leaves exactly if it was full. |
| CachedTables.EvictKeeps | qcow/src/vec_cache.rs:117-132 | Whichever block is evicted, with write-back of a dirty one every lookup is the same as before. |
| PointerTables.PointersRoundTrip | qcow/src/qcow_raw_file.rs:35-79 | Reading back with the mask undoes writing with the flag, for 512-aligned addresses below 2^56. |
| QcowRawFiles.QcowRawFile.ReadPointerTable | qcow/src/qcow_raw_file.rs:35-50 | The words at the offset, masked on request; an error exactly if they reach behind the end of the file. |
| QcowRawFiles.QcowRawFile.AddClusterEnd | qcow/src/qcow_raw_file.rs:102-115 | A zeroed cluster at the next aligned address, unless that exceeds the limit. |
| QcowOpens.FindAvailClusters | qcow/src/qcow.rs:663-684 | The list holds exactly the clusters of the file with a count of zero, in ascending order. |
| QcowOpens.Open | qcow/src/qcow.rs:447-557 | An image with sound tables opens exactly if no L2 table has a compressed entry and the file is no longer than the refcount table describes; it then shows the disk the tables describe. |
| QcowHeaders.HeaderRoundTrip | qcow/src/qcow.rs:192-349 | A header that was written is read back: every field of version 3, the common fields of version 2. |
| QcowLayouts.LayoutApart | qcow/src/qcow.rs:254-302 | Header, L1 table and refcount table of a new image are aligned and apart exactly for sizes up to 4 TiB. |
| QcowLayouts.BlocksHoldCounts | qcow/src/qcow.rs:352-361 | The blocks have a slot for every cluster and for every block that counts data. |
| QcowLayouts.TableHoldsPointers | qcow/src/qcow.rs:271-288 | The pointers to all refcount blocks fit the clusters set aside for the table. |
| QcowLayouts.EveryClusterCounted | qcow/src/qcow.rs:254-302 | The table has a slot for every cluster the image can ever use: header, tables, data and refcount blocks. |
| QcowLayouts.LayoutUsable | qcow/src/qcow.rs:452-496 | The geometry an image is opened with meets what the engine needs exactly for sizes up to 4 TiB. |
| QcowRebuilds.CountReferences | qcow/src/qcow.rs:687-770 | The counters are the numbers of references from header, L1 table, L2 tables, their entries and refcount table, in 16 bits; it fails exactly if a table cannot be read or a reference lies out of range. |
| QcowRebuilds.AllocRefblocks | qcow/src/qcow.rs:775-802 | Block number k goes to the k-th free cluster; it fails exactly if there are fewer free clusters than blocks. |
| QcowRebuilds.RebuildRefcounts | qcow/src/qcow.rs:687-924 | Works exactly for images fit for it and otherwise writes nothing; afterwards the file holds the number of references for every cluster the rebuilt table covers, the blocks lie on clusters nothing referred to, and apart from header, table and blocks no byte changed. |
| QcowRebuilds.CountsAddUp | qcow/src/qcow.rs:688-695 | The counts of all clusters add up to the number of references. |
| QcowRebuilds.RebuildCovers | qcow/src/qcow.rs:782-783 | With 64 KiB clusters the rebuilt table covers every cluster of the image exactly up to 32758 data clusters. |
| QcowRebuilds.ClippedPointer | qcow/src/qcow.rs:336-345 | Writing the header behind a table that fills its clusters leaves the table intact exactly if bits 8 to 15 of its last pointer are zero. |
| QcowRestores.RebuiltWellFormed | qcow/src/qcow.rs:446-449 | A sound image without trustworthy counts is well formed after a rebuild whose table reaches every cluster the engine relies on: every role is unique and everything in use is counted. |
| QcowRestores.RebuiltExactly | qcow/src/qcow.rs:687-924 | If what a rebuild leaves can be opened, it is well formed, under some assignment of roles, if and only if the rebuilt table reaches every cluster relied on: all that are referenced, but for clusters of the refcount table that hold no entry. |
| QcowRestores.RestoredContents | qcow/src/qcow.rs:687-924 | The rebuild changes nothing on the virtual disk. |
| QcowCreations.From | qcow/src/qcow.rs:398-557 | A file is refused exactly for the first of the listed reasons that applies; otherwise counts that are not to be trusted are rebuilt, and the image shows the disk its L1 table describes. |
| QcowCreations.New | qcow/src/qcow.rs:560-583 | Creating an image succeeds exactly for versions 2 and 3 and sizes up to 34994654 clusters of 64 KiB; the image is then valid and reads as zero everywhere. |
| QcowCreations.NewRefusalIs | qcow/src/qcow.rs:398-449 | Why the header just written is refused: the version, a size above 16 TiB, or counts that cannot be rebuilt. |
| QcowCreations.ConvertReader | qcow/src/qcow.rs:1658-1674 | The branch that converts into a new qcow2 image, for a qcow2 source: the image has the same bytes; it is refused for sources larger than a new image can be, and otherwise fails only for want of clusters. |
| QcowConversions.FindAllocatedCluster | qcow/src/qcow.rs:1164-1192 | The least address from the given one on whose cluster is, or is not, allocated. |
| QcowConversions.SeekHole | qcow/src/qcow.rs:1551-1566 | The first hole, the end of the disk counting as one. |
| QcowConversions.SeekData | qcow/src/qcow.rs:1568-1577 | The first data, or that there is none. |
| QcowConversions.ConvertCopy | qcow/src/qcow.rs:1598-1625 | Exactly the given range is taken over. |
| QcowConversions.ConvertReaderWriter | qcow/src/qcow.rs:1627-1656 | The walk over data and holes terminates and leaves the destination equal to the source; what it skips is zero. |
| AmlRoundTrip.TermRoundTrip | acpi_tables/src/aml.rs:18-1107 | Decoding recovers every legal term from its bytes, whatever follows them, up to terms that have the same encoding. |
| AmlRoundTrip.AllRoundTrip | acpi_tables/src/aml.rs:553-567 | The same for lists of terms. |
| AmlRoundTrip.EncodingUnambiguous | acpi_tables/src/aml.rs:18-1107 | Two legal terms with the same bytes are the same term up to such equal encodings. |
| AmlRoundTrip.PkgLengthRoundTrip | acpi_tables/src/aml.rs:196-232 | A package length below 2^28 is read back, whether or not it counts its own bytes. |
| AmlRoundTrip.PkgLengthExact | acpi_tables/src/aml.rs:196-232 | It is read back exactly if it is below 2^28. |
| AmlResources.TemplateRoundTrip | acpi_tables/src/aml.rs:305-544 | Decoding the data of a resource template recovers its descriptors, of every kind. |
| AmlWriter.CreatePkgLength | acpi_tables/src/aml.rs:196-232 | The bytes pushed are those of the length function. |
| AmlWriter.AppendAmlBytes | acpi_tables/src/aml.rs:18-1107 | Whatever the term, what is appended is its encoding, and the bytes already there stay. |
| PciConfigs.SizeRoundTrip | pci/src/configuration.rs:253-283 | Decoding an encoded BAR size gives the size back, for 32 and 64 bits. |
| PciConfigs.GuestWriteMasked | pci/src/configuration.rs:519-588 | A guest write of one, two or four bytes changes at most the writable bits of the one register it goes to. |
| PciConfigs.BarAdded | pci/src/configuration.rs:593-666 | After adding a BAR its base is the configured address, aligned, its size the configured one, and every other base is as before. |
| PciConfigs.MoveTracksBase | pci/src/configuration.rs:815-930 | What a write to a register of a BAR in use reports is exactly how the bases change: the old base, the new base, and no other BAR; and it never aborts, as every size decodes. |
| PciConfigs.MovesFormChain | pci/src/bus.rs:257-275 | Over every run of writes the moves of a BAR form a chain from its first base to its last, each starting where the one before ended, and no write aborts. |
| PciConfigs.ProbeLeavesNoTrace32 | pci/src/configuration.rs:519-542 | Probing a 32-bit BAR and restoring it reports no move and changes nothing; what is read back gives the size exactly from 16 bytes of memory or 4 of I/O space on. |
| PciConfigs.ProbeLeavesNoTrace64 | pci/src/configuration.rs:871-899 | The same for both halves of a 64-bit BAR, the low half restored first; the halves together give the size exactly from 16 bytes on. |
| PciConfigs.HighHalfFirst | pci/src/configuration.rs:871-899 | Restoring the high half first reports no move exactly if the size mask equals the address. |
| PciDevices.HighHalfFirstMoves | pci/src/configuration.rs:871-899 | A new device with a 64-bit BAR of 16 KiB at 4 GiB, probed and restored in that order, for which a move is reported. |
| PciConfigs.UnusedRegisterMoves | pci/src/configuration.rs:871-899 | A write to the register of a BAR that does not exist reports a move exactly if the value is not all ones and either the register before it differs from the address known or the writable bits of the value are not zero; it aborts the program exactly if there is no BAR before it either. |
| PciDevices.UnusedBehindProbe | pci/src/configuration.rs:871-899 | A new device with a 32-bit BAR of 4 KiB that is being probed: writing zero to the register behind it reports a move. |
| PciDevices.BridgeRegisterAborts | pci/src/configuration.rs:884-887 | A new bridge: writing 0x10 to register 9, its memory base and limit, aborts. |
| PciDevices.PciConfiguration.constructor | pci/src/configuration.rs:433-486 | A new device satisfies the invariants of BARs and capability list, with no capabilities: what `MovesFormChain` and `ListIntact` start from. |
| PciCapabilities.CapAdded | pci/src/configuration.rs:733-770 | A capability that was added is the last of the list; the others keep place, id and payload. |
| PciCapabilities.NeighboursDisjoint | pci/src/configuration.rs:773-776 | The bytes of neighbouring capabilities are disjoint exactly if the payload length is 1 or 2 modulo 4. |
| PciCapabilities.GuestKeepsCaps | pci/src/configuration.rs:778-809 | No guest write changes an id, a next pointer or a read-only payload byte. |
| PciCapabilities.WalkVisitsAll | pci/src/configuration.rs:733-770 | Following the pointers from 0x34 visits exactly the capabilities added, in order, and ends. |
| PciCapabilities.ListIntact | pci/src/configuration.rs:733-809 | All of this over every run that mixes additions with guest writes. |
| PciDevices.PciConfiguration.WriteRegister | pci/src/configuration.rs:519-542 | The arrays change as the function on values says. |
| PciDevices.PciConfiguration.WriteConfigRegister | pci/src/configuration.rs:778-809 | The same for writes of one, two and four bytes, with the MSI-X control word picked up where it is written. |
| PciDevices.PciConfiguration.DetectBarReprogramming | pci/src/configuration.rs:815-930 | The same for detecting moves, for 32-bit, 64-bit and ROM registers; it says when the source would abort on a size that does not decode. |
| PciDevices.PciConfiguration.AddPciBar | pci/src/configuration.rs:593-666 | The same for adding a BAR, with every error. |
| PciDevices.PciConfiguration.AddPciCapability | pci/src/configuration.rs:733-770 | The same for adding a capability. |
| MsixTables.SetMsgCtlKeeps | pci/src/msix.rs:159-205 | A control write keeps routes equal to table entries while MSI-X is on, leaves nothing pending that could be triggered, and turns each pending bit it clears into exactly one trigger. |
| MsixTables.WriteTableKeeps | pci/src/msix.rs:254-336 | The same for a table write. |
| MsixTables.SignalKeeps | virtio-devices/src/transport/pci_device.rs:783-809 | A device signal is triggered or becomes pending, or merges with one that is. |
| MsixTables.RestoreKeeps | pci/src/msix.rs:115-149 | Restoring a snapshot establishes both invariants and triggers nothing. |
| MsixTables.RestoreOff | pci/src/msix.rs:115-149 | After restoring a snapshot taken with MSI-X off, no vector is registered if and only if none was before. |
| MsixTables.InterruptsConserved | pci/src/msix.rs:159-416 | Over every run of control writes, table writes, signals and restores both invariants hold, and for each vector triggers plus pending equal what there was, plus the signals that did not merge, plus what restores brought. |
| MsixTables.RunConnected | pci/src/msix.rs:159-205 | Over every run in which restores bring MSI-X up, a vector is triggered only while neither it nor the function is masked, and the trigger meets a registered route with the current table entry exactly if MSI-X is enabled. |
| MsixConfigs.MsixConfig.SetMessageControl | pci/src/msix.rs:159-205 | The object changes as the function on values says. |
| MsixConfigs.MsixConfig.WriteTableEntry | pci/src/msix.rs:254-336 | The same for table writes of four and eight bytes. |
| MsixConfigs.MsixConfig.SetState | pci/src/msix.rs:115-149 | The same for a restore. |
| TokenBuckets.Gcd | rate_limiter/src/lib.rs:70-79 | The greatest common divisor: it divides both, and every common divisor divides it. |
| TokenBuckets.RefillIsRate | rate_limiter/src/lib.rs:121-149 | The refill computed with the reduced fraction is the one of the configured rate. |
| TokenBuckets.RefillsAdd | rate_limiter/src/lib.rs:176-181 | Two refills give no more than one over the whole time. |
| TokenBuckets.RateBound | rate_limiter/src/lib.rs:154-217 | Over every run without over-consumption the tokens granted are at most burst, one bucket full, what was put back, and what the rate yields in the time elapsed; the budget never exceeds the size. |
| TokenBuckets.FailureLosesBurst | rate_limiter/src/lib.rs:154-204 | A refused request costs credit exactly if some burst was left, less than asked for, and the refilled budget does not cover the rest; what is lost is the burst. |
| TokenBuckets.BurstLost | rate_limiter/src/lib.rs:156-171 | A bucket of ten with an empty budget and a burst of one: asking for five fails and leaves no burst. |
| TokenBuckets.TokenBucket.Take | rate_limiter/src/lib.rs:154-204 | The bucket changes as the function on values says. |
| TokenBuckets.RateLimiter.Consume | rate_limiter/src/lib.rs:376-420 | While the timer runs nothing is granted; otherwise the bucket decides, and anything but a success starts the timer. |
| NetQueues.TxVirtio.ProcessDescChain | net_util/src/queue_pair.rs:37-144 | The chains handed back are a prefix of those available, in order and once each, with the lengths the tap took; the chain in hand when the tap is full or the limit is reached stays first; counters grow by what was sent. It fails exactly if one of the chains it gets to is unusable or meets a tap error, and then that chain is lost. |
| NetQueues.FailsExactly | net_util/src/queue_pair.rs:53-108 | When a call fails, in terms of its inputs alone: some chain breaks it, and every chain before that goes through and leaves the limit alone. |
| NetQueues.WrongDescriptorFails | net_util/src/queue_pair.rs:60-84 | One chain with a single descriptor of the wrong direction fails either way, whatever the tap does. |
| NetQueues.TapErrorFails | net_util/src/queue_pair.rs:98-108 | One chain and a tap error fail a transmit call; one empty chain fails a receive call. |
| NetQueues.RxVirtio.ProcessDescChain | net_util/src/queue_pair.rs:167-295 | The same for receiving; the result says whether the available chains ran out; an unusable or empty chain that fails the call is lost, a failed read loses none. |
| NetQueues.NetQueuePair.ProcessTx | net_util/src/queue_pair.rs:356-402 | The tap is watched for being writable exactly if the last write was refused, and the totals take over the counters, also those of earlier calls that failed; the same exact failure, with the position behind the lost chain. |
| NetQueues.NetQueuePair.ProcessRx | net_util/src/queue_pair.rs:404-445 | The tap stays watched exactly while chains are left and no limit is reached; the same exact failure. |
| NetQueues.StillAccounted | net_util/src/queue_pair.rs:110-111 | Totals that agree with the whole history of the used ring still do after a call. |
| NetQueues.TransmitAll | net_util/src/queue_pair.rs:356-402 | Over any number of calls, up to the first that fails: which one that is follows from the inputs alone; every chain taken before was handed back once and in order, the totals are the frames and bytes of the used ring, modulo 2^64, and the position is that of the history, behind the lost chain on a failure. |
| NetQueues.ReceiveAll | net_util/src/queue_pair.rs:404-445 | The same for the receive queue. |

## Findings

Properties one would expect that the code does not have. Each is stated with the exact condition under which
it does hold.

- A new image lays out its tables apart from each other up to 4 TiB only: the clusters of the L1 table are
  computed from its number of entries, not of bytes. `QcowLayouts.LayoutOverlaps` gives 4 TiB and one byte,
  `QcowLayouts.LayoutApart` the equivalence.
- A new image can be created up to 34994654 clusters (about 2.08 TiB) only, though images up to 16 TiB are
  accepted otherwise: opening the new file rebuilds its counts, and that keeps no more than 35 million counters.
  One byte more is refused, see `QcowCreations.New`.
- A rebuilt refcount table has only as many entries as a full table has clusters, one or two with clusters of
  64 KiB. It covers all clusters of an image exactly up to 32758 data clusters, about 2 GiB, and not of an image
  with 32759 (`QcowRebuilds.RebuildCovers`); a sound image is well formed after a rebuild if and only if the
  clusters the engine relies on are covered (`QcowRestores.RebuiltExactly`).
- Writing the header clears the last byte but one of the refcount table. A table that fills its clusters
  loses bits 8 to 15 of its last pointer, for example of the pointer 0x200 with 512-byte clusters; it is left
  intact exactly if these bits are zero (`QcowRebuilds.ClippedPointer`).
- When no cluster is left, mapping a cluster fails after the cluster of an L2 table that is still in use was
  queued for reuse: `QcowFiles.QcowFile.UpdateClusterAddr`, exactly if the table is clean and no cluster is free.
  `QcowFullImages.FullImageFails` gives such an image, of six clusters.
- A capability with a payload of 3 bytes (or any length 0 or 3 modulo 4) is overwritten by the next one;
  `PciCapabilities.NeighboursDisjoint` is the equivalence.
- A guest that probes a 64-bit BAR and restores the high half first is taken to move it, unless the address
  equals the size mask: `PciConfigs.HighHalfFirst`. `PciDevices.HighHalfFirstMoves` gives 16 KiB at 4 GiB.
- A write to the register of a BAR that does not exist may report a move, or abort the program where the size
  of that move does not decode: `PciConfigs.UnusedRegisterMoves` says exactly when. `PciDevices.UnusedBehindProbe`
  writes zero behind a 32-bit BAR that is being probed, `PciDevices.BridgeRegisterAborts` writes 0x10 to the memory
  base of a bridge.
- A BAR below 16 bytes of memory or 4 of I/O space does not tell its size: `PciConfigs.ProbeLeavesNoTrace32`,
  `PciConfigs.ProbeLeavesNoTrace64`.
- A package length of 2^28 or more is not read back: `AmlRoundTrip.PkgLengthExact`.
- A refused request may use up the burst: `TokenBuckets.FailureLosesBurst` is the equivalence,
  `TokenBuckets.BurstLost` a burst of one and a request for five.
- A transmit call that fails drops one chain, which is never handed back, and so does a receive call that fails at
  an unusable or empty chain. `NetQueues.FailsExactly` says when, `NetQueues.WrongDescriptorFails` and
  `NetQueues.TapErrorFails` give a chain of one descriptor in the wrong direction, a tap error and an empty chain.

## Left out

- Failing steps are not atomic in the source; contracts describe the successful outcome, and of a failure only
  what is said above.
- Short writes to the host file, O_DIRECT buffers and host I/O errors: the host file is a sequence of bytes
  that can always be written.
- Backing files, compressed clusters, encryption and snapshots in qcow2, which the source refuses or ignores.
- QcowOpens.Open: requires that the tables are sound; what happens on an inconsistent image is not modelled. The
  file length is compared with the reach of the refcount table before the scan for free clusters, where the
  source finds out during the scan.
- QcowRebuilds.RebuildRefcounts: requires that no cluster has 65536 references or more and that the header's table
  has room for the rebuilt one; the source checks neither. The padding of the last block is written together
  with the block.
- QcowCreations.From: the errors of a failing rebuild are not told apart. Files whose tables are not sound are excluded
  by its precondition. The overflow checks of the table offsets are left out, as they cannot fail for a table
  that was read from the file.
- QcowCreations.New: the file is empty, as it is where the source creates images; a header on top of old contents is
  not modelled.
- QcowCreations.ConvertReader: from qcow2 to qcow2 only; raw files on either side would add a plain byte array.
- QcowRuns.CommitSafety: says nothing about runs with discards between the discard and the next write of the L1
  table, as discards edit L2 tables in place.
- QcowRuns.FlushAndRun: for runs without discards, and for runs that succeed.
- QcowRuns.Run: that a count of zero means a cluster is unused is not stated; a refcount block that was moved keeps its count.
- Data clusters shared by several entries: there is no copy-on-write, and each data cluster is referenced once.
- AmlRoundTrip.TermRoundTrip: requires what the specification requires of names, counts and lengths; building a path or an
  EISA id from a string is not modelled, and floating point does not occur.
- PciConfigs.MovesFormChain: for writes of whole registers of BARs in use. Adding a ROM BAR is not modelled, moving one is.
- PCI interrupt lines, class codes and the snapshot of the configuration space.
- MsixTables.RunConnected: a restore with MSI-X off of a device that had vectors registered leaves them registered
  (`MsixTables.RestoreOff`), and such restores are left out of the runs.
- MsixTables.SetMsgCtlKeeps: updates of routes are assumed to succeed; reading the table and the pending bits is not modelled.
- TokenBuckets.RateBound: for runs without requests larger than the bucket, whose waiting time is a floating point number; no
  product leaves the 64-bit range. The timer is a flag.
- NetQueues.TxVirtio.ProcessDescChain: guest memory, address translation and errors of the queue itself are left out; chains
  added while a call runs count as available from its start.
- The control queue of the network device, block devices, vhost, VFIO, the hypervisor layer and command line
  handling.
