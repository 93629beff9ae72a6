# Verification of the DPS publish/subscribe transport

DPS passes messages through dma-buf memory. A publisher allocates its queue buffers, an
event descriptor and a shared *info record*, and then advertises itself by creating an
empty file named `\pid\fd` in its topic's directory. A subscriber watches that directory
with inotify, decodes such a name, duplicates the publisher's descriptor and reads the
record. This project models those steps and the codecs around them in Dafny and proves
what they promise. `dafny verify dfyconfig.toml` checks all of it.

## The parts

- **Publishers** (`PublisherWorld`, `PublisherLaws`, `PublisherBase`). Any number of
  constructors and destructors, several in a process, interleave step by step over the
  kernel's descriptor tables and directories; pids, descriptors and file names are reused,
  generations are not. `PublisherWorld.StepInv` is the invariant of every step; the laws
  are about every run. `PublisherBase` is the class itself, with its loops.
- **Discovery** (`Discovery`, `DiscoveryLaws`, `Scenarios`, `Unwatched`, `TornRecord`). A subscriber next to all those publishers:
  it looks for the directory, watches it, scans it (not atomically), and then, pass by pass,
  looks at the record it is attached to and takes a batch of events, starting over on every
  deletion. Its invariant
  (`SubInv`) is kept by every step of anybody. `Unwatched` is about a subscriber whose
  watch failed, and `TornRecord` about one that is ended by a record that is not there yet.
- **Event batches** (`InotifyBatch`, `EventBatches`). The walk over the bytes of a batch,
  and that it comes to what `Discovery` says about the events one by one.
- **The info record** (`FlatBuffer`, `PublisherInfo`, `PublisherInfoLaws`,
  `FlatBufferBuilder`, `PublisherInfoBuilder`, `SharedInfo`). Bytes with a vtable, offset
  vectors, alignment and elided defaults; packing, reading and mutation in place. The
  builder classes are proved to write exactly what the functions say.
- **Codecs** (`TopicName`, `InfoFileName`, `FdInfo`, `Text`, `Bytes`): topic names, info
  file names, the kernel's fdinfo text.
- **Resources** (`DmaBuffer`, `EventFd`, `CaptureRing`, `PidSweep`) and the **NV12
  conversion** (`Nv12`).

Methods and classes follow the loops and field updates of the sources and are proved
equal to functions on values; the laws are lemmas about those functions.

## What the proofs found

- `last_index` is built with its default -1, so it is not stored, and
  `mutate_last_index` can never change it (`LastIndexIsFrozen`). The schema's comment,
  which has publishers advance it, cannot come true on such a record.
- `inotify_add_watch` is not checked. When the directory disappears between the look at it
  and the watch and is back for the scan, the subscriber never hears anything again: it can
  miss every publisher (`LostForever`) or stay attached to one that is gone
  (`StaleForever`). The answer of `inotify_add_watch` is the exact condition: a subscriber in
  its loop agrees with the directory in every quiet continuation, if and only if it has a
  watch (`AgreesIffWatched`; some process has to have three descriptors to spare).
- A watched subscriber can be ended in two ways, and in no others: it tries a name behind
  which there is no buffer any more, or it looks at something that is no complete record with
  vectors. Each time the end of that name is still to be announced to it, or, in the second
  way, its publisher has an empty queue (`EndsIff`). A publisher that comes and goes quickly
  is enough: `TornRecord` is a run in which the recycled descriptor is the next publisher's
  info buffer, still zero.
- The older publisher closes each descriptor before it removes its file, so it takes the file
  of another publisher along, exactly when that one was handed the descriptor just closed for
  the same place in a queue of the same length and made its file before the removal
  (`TakesAlong`, `CanTakeAlong`).
- Descriptor 0 is taken for "none" by the destructors, so it is never closed: everything
  is given back exactly if no part got descriptor 0 (`CleanUnlessZero`,
  `ClosedUnlessZero`, `ClosesWhatItOpened`).
- The subscriber reads the record's vectors without asking whether they exist; they do
  exactly if the queue is not empty (`VectorsThereIffQueued`, `LegibleIffQueued`).
- A plain eventfd could leave a notifier waiting for the next notification as soon as there
  are two (`PlainStrandsIffTwo`); with the semaphore a notifier waits only for others to
  finish, and only beyond the counter's limit (`BlockedIffTooMany`, `AllCanFinish`).
- For odd heights the last picture row has no chroma row (`OddSizesHaveNoChroma`).

## Model

| member | source | states |
|---|---|---|
| PublisherWorld.StepInv | src/publisher_base.cpp:5-109 | every step of any constructor, destructor, other process or directory removal keeps: parts open while needed, record complete before it is advertised, file there exactly while advertised, every file somebody's |
| PublisherWorld.RunInv | src/publisher_base.cpp:5-109 | the invariant holds after every run of any number of publishers |
| PublisherWorld.ActInv | src/publisher_base.cpp:5-46 | the same for one action of one publisher, for its own parts and everybody else's |
| PublisherWorld.OthersKeepParts | src/publisher_base.cpp:36-45 | no action of one publisher closes a part of another |
| PublisherWorld.RecordAfter | src/publisher_base.cpp:91-96 | the byte copy extends the written prefix of the record, and a complete record stays complete |
| PublisherWorld.FileIsOwn | src/publisher_base.cpp:101-108 | the file under a publisher's name, if any, is its own, because its info buffer keeps the name from being handed out again |
| PublisherWorld.SamePacked | src/publisher_base.cpp:71-88 | nothing the record says changes once the info buffer is allocated |
| PublisherLaws.AdvertisedIsReady | src/publisher_base.cpp:5-109 | after any run, the name of every info file decodes to the open info buffer of the publisher that made it; the record in it is readable and complete, and every descriptor it names is open and is what the record says |
| PublisherLaws.RecordSays | src/publisher_base.cpp:71-84 | after any run, every advertised record says its publisher's queue size, message size, pid, event and queue descriptors, -1 for the last index and every index of the pool, and zero for every time stamp and message id |
| PublisherLaws.NoLastIndex | src/publisher_base.cpp:80-99 | whatever mutators are called on an advertised record, its last index reads -1 |
| PublisherLaws.VectorsThereIffQueued | include/dps/msg/publisher_info_generated.h:284-288 | after any run, a reader finds the vectors of an advertised record exactly if its queue size is positive |
| PublisherLaws.DistinctPaths | src/publisher_base.cpp:102-103 | after any run, two publishers with open info buffers have different file paths, as strings |
| PublisherLaws.OwnRemovalOnly | src/publisher_base.cpp:34-34 | a file disappears only by the removal of the publisher that made it |
| PublisherLaws.OwnClosesOnly | src/publisher_base.cpp:36-45 | a publisher's descriptor is closed only by that publisher, at the point of its destructor meant for it |
| PublisherLaws.ClosedUnlessZero | src/dma_buffer.cpp:18-31 | after any run, a destructed publisher has nothing open, if and only if it was never handed descriptor 0 |
| PublisherLaws.AccountedStep | src/publisher_base.cpp:5-46 | every step keeps: each open object is a part its publisher still holds, or descriptor 0 |
| PublisherBase.PublisherBase.constructor | src/publisher_base.cpp:5-27 | the constructor adds exactly its parts, its file and its state to the system and keeps the invariant |
| PublisherBase.PublisherBase.Destroy | src/publisher_base.cpp:29-46 | the destructor of a publisher, advertised or not, removes its file first and then closes exactly its parts except descriptor 0 |
| PublisherBase.ComeAndGo | src/publisher_base.cpp:5-46 | constructor and destructor together leave the files as they were, and the descriptors if and only if none was 0 |
| PublisherBase.ClosesWhatItOpened | src/dma_buffer.cpp:18-44 | closing all parts undoes opening them, if and only if none is descriptor 0 |
| PublisherBase.Construct | src/publisher_base.cpp:10-26 | the steps of the constructor in their order, and all they change |
| PublisherBase.AllocateBuffers | src/publisher_base.cpp:14-20 | the loop opens every queue buffer, in the order of the queue |
| PublisherBase.FillInfo | src/publisher_base.cpp:62-84 | the loops fill the record, field by field, with the sizes, the pid, every descriptor in its place, -1 for the last index and every index of the pool, and zero pools |
| PublisherBase.ShareInfo | src/publisher_base.cpp:86-108 | the info buffer is allocated, the record copied byte by byte, and only then the file created and closed, if the directory is there |
| PublisherBase.Kernel.CreateInfoFile | src/publisher_base.cpp:105-107 | opening creates a new file of this publisher, never one that exists, or none for want of the directory |
| PublisherBase.Kernel.CloseInfoFile | src/publisher_base.cpp:108-108 | the file that was made is there and is finished by closing it |
| Discovery.StepIsFaithful | src/publisher_base.cpp:29-46 | for any step and topic: watchers are told of each file that is closed or removed and of the directory's end, and of nothing else |
| Discovery.OutsideKeeps | apps/inotify_topic.cpp:88-204 | a publisher's step, with the event it queues, keeps the subscriber's invariant, also in the middle of a scan |
| Discovery.MovedKeeps | apps/inotify_topic.cpp:69-204 | every step of the subscriber, looking at its record included, keeps its invariant |
| Discovery.EventTaken | apps/inotify_topic.cpp:167-201 | taking the next event keeps the invariant: attaching, starting over or going on |
| Discovery.EntryRead | apps/inotify_topic.cpp:92-102 | reading a directory entry, stale or not, keeps the invariant |
| Discovery.AttachPresent | apps/inotify_topic.cpp:55-63 | attaching under a name whose file is there succeeds and reaches the info buffer of the publisher that made it |
| Discovery.SuccInv | apps/inotify_topic.cpp:69-204 | every step of the whole system keeps both invariants |
| Discovery.SystemRunInv | apps/inotify_topic.cpp:69-204 | they hold after every run of the system |
| DiscoveryLaws.NoneLostNoneStale | apps/inotify_topic.cpp:69-204 | after any run, a looping, watched subscriber is about to start over, or: unattached, it has every finished file still announced; attached, its publisher is the current one or the end of the name is still announced |
| DiscoveryLaws.QuiescentAgreement | apps/inotify_topic.cpp:79-204 | when nothing is pending and no file is half made, a looping subscriber that has a watch is attached if and only if somebody advertises, and then to the current publisher of that name, with a complete record of open descriptors |
| DiscoveryLaws.AttachWhilePresent | apps/inotify_topic.cpp:55-63 | any attach made while the name's file is there reads a complete record of open descriptors |
| DiscoveryLaws.EndsIff | apps/inotify_topic.cpp:55-141 | a watched subscriber is ended by a step if and only if it tries a name behind which there is no buffer, whose file is then gone and its end still to be announced, or looks at what it cannot read; unless the end of its attachment is still to be announced, a look ends it if and only if the publisher's queue is empty |
| DiscoveryLaws.AttachedIsLegible | apps/inotify_topic.cpp:114-144 | after any run, what a looping, watched subscriber is attached to can be looked at if and only if its publisher has a queue, or its end is still to be announced |
| DiscoveryLaws.LegibleIffQueued | apps/inotify_topic.cpp:119-142 | a record that was completed can be looked at for ever after, if and only if its queue is not empty |
| DiscoveryLaws.OneStepGuarded | apps/inotify_topic.cpp:69-109 | a subscriber gets to the watch only by finding the directory and past it only by adding it, has a watch if and only if the directory was there at that moment, and without a directory stays where it is |
| DiscoveryLaws.AlwaysWatched | apps/inotify_topic.cpp:69-109 | in every run in which no watch is added too late, the subscriber never scans or loops without one, however often it starts over |
| DiscoveryLaws.AgreementIfWatchesTaken | apps/inotify_topic.cpp:69-204 | in such a run it agrees with the directory whenever it is in its loop and all is quiet |
| DiscoveryLaws.OneStepAttached | apps/inotify_topic.cpp:97-193 | a step makes the subscriber start over if and only if it takes the end of a file or of the directory; otherwise an attachment stays, and without one the first name that is tried with success becomes it |
| DiscoveryLaws.OneStepEnds | apps/inotify_topic.cpp:55-141 | besides the two ways of `EndsIff`, a subscriber, watched or not, ends only by scanning a directory that is gone |
| DiscoveryLaws.OneStepEvents | apps/inotify_topic.cpp:112-203 | the subscriber takes its events from the front, one by one, and loses none unless it starts over; others only add at the end; every pass looks at the record before it reads |
| DiscoveryLaws.NeverTwiceInARow | apps/inotify_topic.cpp:88-89 | in no run does the queue hold the same event twice in a row |
| TornRecord.TornRecord | apps/inotify_topic.cpp:112-186 | a run in which a watched subscriber attaches under a stale name to the next publisher's unwritten info buffer and is ended by looking at it |
| TornRecord.ZerosAreIllegible | include/dps/msg/publisher_info_generated.h:104-130 | in a buffer of zeros the getters find no vectors |
| Unwatched.UnwatchedIsDeaf | apps/inotify_topic.cpp:88-144 | without a watch, the subscriber stays in its loop, with the attachment it has or has not, whatever happens afterwards, as long as it is attached to a complete record with a queue, if at all |
| Unwatched.AgreesIffWatched | apps/inotify_topic.cpp:88-204 | after any run, a looping subscriber agrees with the directory in every quiet continuation under the same watch, if and only if it has a watch |
| Unwatched.CanDisagree | apps/inotify_topic.cpp:88-89 | whatever an unwatched subscriber is or is not attached to, the publishers can come to a quiet state it disagrees with |
| Scenarios.CloseAll | src/publisher_base.cpp:107-108 | the publishers of a topic that are creating their files can all close them |
| Scenarios.RemoveAll | src/publisher_base.cpp:34-34 | the publishers of a topic can all remove their files |
| Scenarios.Joins | src/publisher_base.cpp:5-27 | from any state with three descriptors to spare, one publisher more, with a queue, can advertise itself |
| Unwatched.LostForever | apps/inotify_topic.cpp:85-91 | a run after which a finished file is in the directory and the subscriber never attaches, in any continuation |
| Unwatched.StaleForever | apps/inotify_topic.cpp:85-91 | a run after which nobody advertises and the subscriber stays attached, looking at the same record, in any continuation |
| Unwatched.WatchMissed | apps/inotify_topic.cpp:85-91 | the run in which the directory is away just for the watch |
| EventBatches.WalkAgrees | apps/inotify_topic.cpp:167-201 | whatever others do between two records, the walk over a batch's bytes attaches, starts over or ends as the events taken one by one do |
| EventBatches.RecordMeans | apps/inotify_topic.cpp:172-192 | an event's record is taken for what it is, and the name in it decodes to the publisher's pid and descriptor |
| InotifyBatch.MasksMean | apps/inotify_topic.cpp:172-192 | 0x400, with or without the directory flag, starts over; with a name 0x200 alone starts over and 0x8 alone announces; the other masks do neither |
| InotifyBatch.DirectoryEndBit | apps/inotify_topic.cpp:172-172 | the directory's end is told by the bit 0x400, whatever the other bits |
| InotifyBatch.Subscriber.Walk | apps/inotify_topic.cpp:153-202 | on any concatenation of well-formed records the walk visits exactly the record starts in order up to the first that ends it, stays in the buffer, and ends attached as the records say |
| InotifyBatch.NextRecord | apps/inotify_topic.cpp:169-198 | where a record starts, the header fields and the name read back, and the next record starts right behind |
| InotifyBatch.PassRecord | apps/inotify_topic.cpp:172-200 | one record ends the walk or moves it on by one |
| InotifyBatch.VisitedIs | apps/inotify_topic.cpp:167-201 | the records the walk looks at are all up to the first that starts over or fails to attach, or all |
| InotifyBatch.OffsetIsLength | apps/inotify_topic.cpp:194-198 | the position of a record is the length of all records before it |
| InotifyBatch.CNameOfStored | apps/inotify_topic.cpp:55-58 | a padded name reads back as the name |
| PublisherInfoLaws.UnPackOfPack | include/dps/msg/publisher_info_generated.h:258-300 | unpacking any buffer that starts with a packed record gives the record back, for every record |
| PublisherInfoLaws.ScalarRead | include/dps/msg/publisher_info_generated.h:80-115 | a getter returns the stored value, or the default if the scalar was elided |
| PublisherInfoLaws.VectorRead | include/dps/msg/publisher_info_generated.h:104-130 | a vector is there if and only if it was not empty, and reads back element for element |
| PublisherInfoLaws.UnPackOfPackWith | include/dps/msg/publisher_info_generated.h:258-270 | the same for any set of stored scalars that elides defaults only |
| PublisherInfoLaws.MutateEffect | include/dps/msg/publisher_info_generated.h:83-115 | byte for byte, a mutation turns the buffer into the packing of the record with that one field changed, or leaves it alone |
| PublisherInfoLaws.MutationLaw | include/dps/msg/publisher_info_generated.h:83-115 | a mutator returns true if and only if the getter then reads the new value, and no other field changes |
| PublisherInfoLaws.MutationRun | include/dps/msg/publisher_info_generated.h:83-115 | after any sequence of mutations the buffer is the packing of the record with the successful ones applied |
| PublisherInfoLaws.MutableIffStored | include/dps/msg/publisher_info_generated.h:83-115 | a field can be given another value, if and only if it was not packed at its default |
| PublisherInfoLaws.MutableFields | include/dps/msg/publisher_info_generated.h:83-115 | that is, if and only if the packed size or pid was not 0, or the packed descriptor or index was not -1 |
| PublisherInfoLaws.AbsentReads | include/dps/msg/publisher_info_generated.h:80-115 | a scalar that is not stored reads as 0, the event descriptor and the last index as -1 |
| PublisherInfoLaws.ReadBySchema | include/dps/msg/publisher_info_generated.h:69-115 | a reader that uses the schema's ids, widths and defaults gets the scalars of every packed record |
| PublisherInfoLaws.SchemaOffsets | include/dps/msg/publisher_info_generated.h:69-79 | the vtable offsets of the nine fields, and the widths of the vectors' scalars |
| PublisherInfoLaws.LastIndexIsFrozen | src/publisher_base.cpp:80-99 | built with -1, the last index reads -1 after every sequence of mutations |
| PublisherInfoLaws.PackOfWith | include/dps/msg/publisher_info_generated.h:198-220 | changing one stored scalar of a record changes just its bytes in the packing |
| PublisherInfoLaws.PackIsBuildable | include/dps/msg/publisher_info_generated.h:276-300 | every record below the 2 GB limit has valid, distinct fields and offsets that fit their width |
| PublisherInfoLaws.PackSize | include/dps/msg/publisher_info_generated.h:276-300 | a packing is at most 268 bytes more than 8 for every vector scalar |
| PublisherInfoLaws.ScalarIsAligned | include/dps/msg/publisher_info_generated.h:160-177 | every stored scalar lies at a multiple of its width |
| PublisherInfoLaws.ElementsAreAligned | include/dps/msg/publisher_info_generated.h:284-288 | the elements of every stored vector start at a multiple of their width |
| FlatBuffer.FieldRead | include/dps/msg/publisher_info_generated.h:80-115 | a field added to the table is found through the vtable, with its bytes |
| FlatBuffer.FieldAbsent | include/dps/msg/publisher_info_generated.h:80-115 | a field not added has offset 0 |
| FlatBuffer.FinishedReplaced | include/dps/msg/publisher_info_generated.h:83-115 | replacing one scalar's value replaces just its bytes and moves nothing |
| FlatBuffer.RootRead | include/dps/msg/publisher_info_generated.h:302-304 | the first word of a finished buffer leads to the table |
| FlatBuffer.CountIsAligned | include/dps/msg/publisher_info_generated.h:284-288 | whatever is behind it, a vector's count directly precedes its elements |
| FlatBuffer.PadReaches | include/dps/msg/publisher_info_generated.h:160-177 | padding is less than the alignment and brings the size to a multiple of it |
| PublisherInfoBuilder.PackInto | include/dps/msg/publisher_info_generated.h:276-300 | the builder, vector by vector and field by field, writes exactly the packing |
| PublisherInfoBuilder.AddFields | include/dps/msg/publisher_info_generated.h:209-219 | the fields go in in the generated order, and the alignment is that of the widest |
| PublisherInfoBuilder.CreateVectors | include/dps/msg/publisher_info_generated.h:284-288 | the vectors that are not empty are created one in front of the other, at the places the fields refer to |
| FlatBufferBuilder.Builder.CreateVector | include/dps/msg/publisher_info_generated.h:284-288 | padding, elements and count in front of what is there, wherever that ends |
| FlatBufferBuilder.Builder.AddElement | include/dps/msg/publisher_info_generated.h:160-177 | a scalar is added and tracked, unless it is the default |
| FlatBufferBuilder.Builder.AddOffset | include/dps/msg/publisher_info_generated.h:172-186 | a reference is added and tracked, unless it is null |
| FlatBufferBuilder.Builder.EndTable | include/dps/msg/publisher_info_generated.h:191-195 | the vtable and the way back to it complete the table |
| FlatBufferBuilder.Builder.Finish | src/publisher_base.cpp:87-88 | the root offset is put in front, aligned |
| FlatBufferBuilder.SlotsSnoc | include/dps/msg/publisher_info_generated.h:160-186 | one field more in the table is one slot in front of it and one entry in the vtable |
| SharedInfo.UnPackTo | include/dps/msg/publisher_info_generated.h:258-270 | unpacking field by field and element by element, absent vectors as empty ones |
| SharedInfo.ReadVector | include/dps/msg/publisher_info_generated.h:265-269 | the element loop reads the whole vector |
| SharedInfo.InfoBuffer.MutateField | include/dps/msg/publisher_info_generated.h:83-115 | the mutators work on the mapped bytes in place |
| SharedInfo.InfoBuffer.Fill | src/publisher_base.cpp:93-96 | the copy loop puts the record at the front of the buffer and leaves the rest |
| SharedInfo.StoreScalar | include/dps/msg/publisher_info_generated.h:83-115 | a scalar is overwritten byte by byte, the rest stays |
| Bytes.StoreThenLoad | include/dps/msg/publisher_info_generated.h:80-85 | a stored scalar loads as itself |
| TopicName.SimplifyTopicName | include/dps/core/common.h:60-89 | the one-pass scanner computes: drop backslashes, split at slashes, drop empty components, join |
| TopicName.CanonicalImage | include/dps/core/common.h:60-89 | its results are exactly the non-empty names with no backslash, no leading, trailing or double slash, and it leaves those alone |
| TopicName.Idempotent | include/dps/core/common.h:60-89 | simplifying twice is simplifying once |
| TopicName.SameTopic | include/dps/core/common.h:60-89 | two names give the same topic if and only if their components are the same |
| TopicName.SimplifyBelow | include/dps/core/common.h:60-89 | a name below another can be simplified piece by piece |
| TopicName.KeepsSomething | include/dps/core/common.h:64-84 | after any name, what the scanner kept has a last character to look at, if and only if the name is usable |
| TopicName.UsableHasComponents | include/dps/core/common.h:60-89 | a name is usable if and only if it has a component |
| InfoFileName.SplitAt | apps/inotify_topic.cpp:35-53 | the loop cuts the string at every separator, and only there |
| Text.JoinOfSplit | apps/inotify_topic.cpp:35-53 | joining the parts gives the string back |
| Text.SplitOfJoin | apps/inotify_topic.cpp:35-53 | splitting joined separator-free parts gives the parts back |
| Text.SplitIsFree | apps/inotify_topic.cpp:35-53 | the parts have no separator and are one more than the separators |
| InfoFileName.Decode | apps/inotify_topic.cpp:57-60 | the numbers in parts 1 and 2, or failure where a part is missing or no int |
| InfoFileName.Refused | apps/inotify_topic.cpp:57-60 | a name without two backslashes, or without a digit behind one of them, has no pid and descriptor |
| InfoFileName.MoreParts | apps/inotify_topic.cpp:58-60 | what follows a third backslash does not count |
| Text.StoiReads | apps/inotify_topic.cpp:59-60 | past blanks and up to a non-digit, a number with or without a minus is read, within 32 bits |
| InfoFileName.RoundTrip | src/publisher_base.cpp:102-103 | a printed name decodes to its pid and descriptor, if and only if both are 32-bit ints |
| InfoFileName.Injective | src/publisher_base.cpp:102-103 | different pids or descriptors give different names |
| InfoFileName.PathInjective | src/publisher_base.cpp:102-103 | different topics, pids or descriptors give different paths |
| InfoFileName.PathAsPrinted | src/publisher_base.cpp:102-103 | the path of an info file, character by character, for one publisher |
| InfoFileName.ComponentsAreNotInfoNames | include/dps/core/common.h:66-69 | no component of a topic name is an info file's name or decodes as one |
| Text.ParsePrinted | apps/inotify_topic.cpp:59-60 | a printed number parses as itself, within the range of the parser |
| FdInfo.Trim | include/dps/core/common.h:38-58 | trimming gives the maximal part with no blank at its ends |
| FdInfo.CoreIsUnique | include/dps/core/common.h:38-58 | there is only one such part |
| FdInfo.UpdateBufferInfo | src/dma_buffer.cpp:116-168 | the line loop reads size and names, later lines winning, or fails without a size |
| FdInfo.NoSizeFails | src/dma_buffer.cpp:154-160 | a text with no size line is refused |
| FdInfo.SizeIsPositive | src/dma_buffer.cpp:154-160 | whatever is accepted has a positive size |
| FdInfo.LastSizeCounts | src/dma_buffer.cpp:131-160 | of several sizes the last one counts, and 0 is refused |
| FdInfo.BadSizeFails | src/dma_buffer.cpp:138-141 | a size line without a digit fails, whatever else the text says |
| Text.StoulReads | src/dma_buffer.cpp:140-140 | past blanks and up to a non-digit, a number is read within 64 bits, wrapped around after a minus |
| FdInfo.ReadSize | src/dma_buffer.cpp:138-141 | a printed size line sets the size, within 64 bits, and nothing else |
| FdInfo.ReadHeap | src/dma_buffer.cpp:142-145 | an exporter line sets the heap's name, without blanks around it, and nothing else |
| FdInfo.ReadName | src/dma_buffer.cpp:146-149 | a name line sets the buffer's name, without blanks around it, and nothing else |
| FdInfo.PrefixCounts | src/dma_buffer.cpp:138-149 | a line counts by how its field starts, whatever follows |
| FdInfo.LastLine | src/dma_buffer.cpp:131-131 | a last line without a newline is read like the others |
| FdInfo.RoundTrip | src/dma_buffer.cpp:130-167 | with any unrelated lines around them, the printed size and names are recovered, up to blanks around the names, colons in them or not |
| FdInfo.RoundTripExact | src/dma_buffer.cpp:130-167 | exactly, if and only if the names have no blanks around them |
| FdInfo.KernelHeader | src/dma_buffer.cpp:138-150 | the kernel's other fields, of a buffer or an event, are such unrelated lines |
| DmaBuffer.Conservation | src/dma_buffer.cpp:5-44 | after any interleaving of constructors and destructors, open buffers, open helpers and mappings are one to one what the objects hold, and no call ever closed or unmapped anything else or with another size |
| DmaBuffer.CleanUnlessZero | src/dma_buffer.cpp:18-44 | when all objects are destructed nothing is open or mapped, if and only if none was handed descriptor 0 |
| DmaBuffer.DestroyAgain | apps/create_dma_buffer.cpp:30-30 | a further destructor call changes nothing |
| DmaBuffer.StepConserves | src/dma_buffer.cpp:46-194 | every step keeps the conservation |
| DmaBuffer.DMABuffer.constructor | src/dma_buffer.cpp:5-16 | the object has its descriptor and a mapping of the size the kernel tells; its helper is closed again |
| DmaBuffer.DMABuffer.Destroy | src/dma_buffer.cpp:18-44 | closes and unmaps exactly its own, at most once, and at descriptor 0 nothing |
| EventFd.CounterIsInside | src/event.cpp:20-25 | after any interleaving the counter is the number of notifiers between write and read |
| EventFd.NoReadBlocks | src/event.cpp:24-24 | so no read ever blocks |
| EventFd.ZeroWhenIdle | src/event.cpp:20-25 | the counter is zero if and only if no notifier is between its steps |
| EventFd.BlockedIffTooMany | src/event.cpp:23-23 | a notifier can come to wait, for the time being, if and only if there are more notifiers than the counter's limit |
| EventFd.AllCanFinish | src/event.cpp:20-25 | from every state all that began can finish |
| EventFd.PlainStrandsIffTwo | src/event.cpp:8-9 | without the semaphore flag a state in which all that began wait can be reached, if and only if there are two notifiers |
| EventFd.StrandedWaits | src/event.cpp:23-24 | and such a state is left by a new notification only |
| EventFd.Event.Notify | src/event.cpp:20-25 | whatever others write and read in between, the read does not block, and both steps together leave no trace |
| Nv12.Convert | experiments/video4linux/dmabuf-v4l2.c:455-465 | for every size the loops stay in the buffer and write each cell once, front to back |
| Nv12.MeaningPreserved | experiments/video4linux/dmabuf-v4l2.c:455-466 | for even sizes, read as NV12, each pixel has the luma of the source and the chroma of the even row of its pair |
| Nv12.ConvertedLuma | experiments/video4linux/dmabuf-v4l2.c:456-460 | for every size, the luma of each pixel is the first byte of its two |
| Nv12.ConvertedChroma | experiments/video4linux/dmabuf-v4l2.c:461-465 | chroma row y is the second channel of picture row 2y |
| Nv12.OddSizesHaveNoChroma | experiments/video4linux/dmabuf-v4l2.c:455-465 | a pixel lacks a chroma row in the converted picture, or its second chroma cell in the row, if and only if it is in the last row of an odd height, or the last column of an odd width |
| CaptureRing.Capture | experiments/video4linux/dmabuf-v4l2.c:408-512 | for every number of buffers and order of completion, after every exchange each index belongs to exactly one side, the application has one at most, and what the driver has carries its own descriptor; each frame is read through its own mapping |
| CaptureRing.Run | experiments/video4linux/dmabuf-v4l2.c:349-512 | the same from the allocation on |
| CaptureRing.Allocate | experiments/video4linux/dmabuf-v4l2.c:349-365 | each index gets its descriptor and its mapping |
| CaptureRing.Fill | experiments/video4linux/dmabuf-v4l2.c:367-394 | every index is queued once, with its own descriptor |
| PidSweep.SweepExact | src/_node.cpp:84-101 | after a sweep of any tree, a buffer file is left if and only if it was there and is another process's |
| PidSweep.SweepsOwnFiles | src/_node.cpp:84-99 | the prefix test takes a buffer file if and only if the pid in it is the sweeper's |
| PidSweep.PrefixSameNumber | src/_node.cpp:84-99 | a number with its separator is a prefix of another's if and only if they are equal |
| PidSweep.Sweep | src/_node.cpp:84-101 | the loop removes exactly the regular entries with the prefix |
| PidSweep.Spared | src/_node.cpp:84-101 | of all entries, just the regular files whose name starts with the pid and the separator go |
| PidSweep.FileAsPrinted | src/_base_publisher.cpp:74-77 | the name of a buffer file, character by character, for one buffer |
| PidSweep.Topic.AllocateDmaBufs | src/_base_publisher.cpp:67-83 | a descriptor and a file for each buffer, named by pid, descriptor, index and queue size |
| PidSweep.Topic.CleanupFilesystem | src/_base_publisher.cpp:49-65 | closes each descriptor and then removes its file, while other publishers of the process are handed descriptors and make files in between |
| PidSweep.LeftAlone | src/_base_publisher.cpp:49-65 | undisturbed, that closes exactly the publisher's descriptors and removes exactly its files |
| PidSweep.TakesAlong | src/_base_publisher.cpp:57-63 | of all files that other publishers of the process have made, the cleanup removes exactly those made, before the removal, for a descriptor it had just closed, at the same index of the same queue size; none of those made before it began |
| PidSweep.CanTakeAlong | src/_base_publisher.cpp:57-63 | a case in which it does |
| PidSweep.BufferFileInjective | src/_base_publisher.cpp:58-61 | the name tells its four numbers apart |

## Left out

- `PublisherBase::publish` and the ring order in the schema's comment: the method is only declared.
- The system calls themselves: each is a step with its documented effect; what the kernel answers is a parameter. Running out of descriptors or memory is not modelled.
- Overflow of the inotify queue, and what follows a failed attach: the sources raise a signal there, which ends the subscriber.
- The end of a process without destructors: its info files stay behind and its pid can be handed out again.
- Somebody else removing or creating info files, and directories of topics below the watched one. Such a directory's name does not decode (`InfoFileName.ComponentsAreNotInfoNames`); what a subscriber that scans one does is not modelled.
- PublisherBase.PublisherBase.constructor: has the system to itself while it runs; interleaving is the subject of `PublisherWorld`, whose steps these are.
- The second run of `~PublisherBase` in `apps/create_publisher_base.cpp`, which reads strings that are destroyed already.
- The subscriber's control flow around `goto start` is a state machine over its steps and not a method; its loops over names and batches are methods. Its own descriptors are those of `DmaBuffer`.
- Messages of other threads on the shared record while it is read, and writes to vector elements through the mutable accessors.
- The FlatBuffers library beyond what the generated code uses; its source is not part of this model, which follows the published format: one table, one vtable, scalars and vectors of 4- and 8-byte scalars, buffers below 2 GB. `Verify` and the size-prefixed forms are left out.
- Two topic names that are one directory: the scanner keeps the components `.` and `..`, while the model takes different canonical names for different directories.
- An allocation of no bytes, which the kernel refuses and the sources answer with a signal: a message size of 0 is taken for any other.
- What applications write into the queue buffers. A subscriber attached to one by a stale name may or may not be able to read it as a record.
- Buffer names of 31 bytes or more, which the sources cut without a terminator.
- Characters beyond one byte, and locales: blanks are the C locale's.
- Display, colour conversion, polling times, resource limits, printing, the Python bindings and the other experiments.
