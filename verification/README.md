# A verified model of PySpark's external aggregation, shuffle and codecs

This project models the Python half of Spark 3.1.3 and proves what it promises: the
external (spilling) merge, group-by and sort; the shuffle and the operators built on it; the
stream codecs; and the streaming statistics.  `dafny verify dfyconfig.toml` checks all of it.

The memory probe returns an arbitrary number each time it is asked, a hash function is any
function of key and seed, a dictionary lists its items in any order, and the map outputs of
a shuffle arrive in any order.  So every theorem ranges over every spill schedule, every
distribution of keys and every interleaving.

## How it is layered

- `Aggregation.dfy` defines the reference: one dictionary, folded in arrival order.
  `ExternalMerger.dfy` is the class that spills and partitions again; its ghost layers, one
  dictionary per spill, merged oldest first, always equal that fold.
- `StableSorting.dfy` characterizes the stable sort; `ExternalSorter.dfy` sorts in chunks and
  merges them; `ExternalList.dfy` has the spillable lists and the grouping of sorted runs;
  `ExternalGroupBy.dfy` chooses between a hash merge and a sorted merge of spilled files.
- `Shuffle.dfy` goes from map-side merging through pickled chunks to the reducers
  (`CombineByKey`); `Grouping.dfy`, `Join.dfy`, `Cogroup.dfy`, `RangeSort.dfy` and
  `TreeAggregate.dfy` rest on it.
- `Partitioning.dfy` has RDDs as objects: pipelining, caching, the claimed partitioner, and
  whole driver programs over a pool of shared RDDs.
- `Serializers.dfy` and `ChunkedStream.dfy` work on bytes; `StatCounter.dfy`,
  `Histogram.dfy` and `Take.dfy` stand alone but for `Quotients.dfy`; `Sampler.dfy` serves `RandomSplit.dfy` and the
  sample of `sortByKey`.

## What the proofs found

- `ExternalMerger` rests on associativity of `mergeCombiners` and its agreement with `mergeValue`;
  layers merge to one fold for all data just when it is associative (`LayersFoldAlikeIff`).  All
  arrival orders of a shuffle agree just when it is commutative too (`PermutationsFoldAlikeIff`).
  `reduce` asks for commutativity in its documentation, but the partial results come back in
  partition order, so associativity is enough (`ReduceAll`).
- With one bucket, re-partitioning need not end: readings of memory that are low when a limit is
  taken and high after each file make it go on for ever (`OneBucketNeverStops`).
- A key with no value in any of its lists is lost by the sorted, flattened files of `ExternalGroupBy`
  (`GroupFullAtTheEnd`); an empty list of any other key does no harm, and `groupByKey` never
  produces one.
- A frame of exactly 2^31 bytes passes the size guard and then fails in `struct.pack`.
- The evenness test of `histogram` tolerates 1e-10, but the constant-time index is right only for
  exactly even buckets (`EvenIndexIffExactlyEven`, with a concrete miscount in `AlmostEven`).
- `randomSplit` never loses a record, but puts it into more than one split if a weight takes the
  partial sums back from above nothing to below the total (`SplitsIff`), as the weights
  1, -1/2, 1/2 do (`NegativeWeightDuplicates`).
- `sortByKey` raises an `IndexError` just when it has several partitions, at least one record
  and an empty sample, which draws can bring about just when there are more than twenty records per
  requested partition (`EmptySampleIff`).
- `StatCounter.mergeStats` of an object with itself raises a `TypeError`.
- `ExternalSorter` is given a flattened serializer at shuffle.py:814-817, and the comment there
  counts on it, but `_compressed_serializer` (shuffle.py:136-139) ignores its argument.  The order
  and contents are the same, so the model follows the code.

## Model

| member | source | states |
|---|---|---|
| `Aggregation.FoldValuesAt` | spark-3.1.3-bin-hadoop3.2/python/pyspark/shuffle.py:87-100 | a dictionary fold over raw values holds exactly the keys that occur, each with its values combined in arrival order |
| `Aggregation.FoldCombinersAt` | spark-3.1.3-bin-hadoop3.2/python/pyspark/shuffle.py:87-100 | the same for a fold over combiners |
| `Aggregation.FoldValuesIsMerge` | spark-3.1.3-bin-hadoop3.2/python/pyspark/shuffle.py:233-255 | folding onto a dictionary is merging with the fold from nothing |
| `Aggregation.FoldCombinersIsMerge` | spark-3.1.3-bin-hadoop3.2/python/pyspark/shuffle.py:267-291 | the same for combiners; commutativity is not used |
| `Aggregation.FoldOfEnumeration` | spark-3.1.3-bin-hadoop3.2/python/pyspark/shuffle.py:347-386 | reading back a dictionary in any item order rebuilds it |
| `Aggregation.FoldCombinersPermuted` | spark-3.1.3-bin-hadoop3.2/python/pyspark/rdd.py:2142-2155 | under associativity and commutativity the fold depends only on the multiset of records |
| `Aggregation.LayersFoldAlikeIff` | spark-3.1.3-bin-hadoop3.2/python/pyspark/shuffle.py:368-386 | merging separately folded layers is one fold, for all records, just when `mergeCombiners` is associative |
| `Aggregation.PermutationsFoldAlikeIff` | spark-3.1.3-bin-hadoop3.2/python/pyspark/rdd.py:2142-2155 | for an associative aggregator, all arrival orders of all records fold alike just when it is commutative as well |
| `Aggregation.RestrictFold` | spark-3.1.3-bin-hadoop3.2/python/pyspark/shuffle.py:293-339 | splitting by bucket commutes with folding: a bucket of the fold is the fold of the bucket |
| `Aggregation.DictItems` | spark-3.1.3-bin-hadoop3.2/python/pyspark/shuffle.py:341-345 | items of a dictionary: every entry once, in an arbitrary order |
| `ExternalMerging.ExternalMerger.constructor` | spark-3.1.3-bin-hadoop3.2/python/pyspark/shuffle.py:200-219 | an empty merger, of any positive number of buckets and any scale |
| `ExternalMerging.ExternalMerger.MergeValue` | spark-3.1.3-bin-hadoop3.2/python/pyspark/shuffle.py:247-250 | one value folded into the dictionary in memory or into its bucket; the contents over all spilled layers are the fold of one more value |
| `ExternalMerging.ExternalMerger.MergeValues` | spark-3.1.3-bin-hadoop3.2/python/pyspark/shuffle.py:233-255 | after any spills and batch growth the contents are the old contents folded with all values in arrival order |
| `ExternalMerging.ExternalMerger.MergeCombiners` | spark-3.1.3-bin-hadoop3.2/python/pyspark/shuffle.py:267-291 | the same for combiners; with limit 0 nothing is spilled |
| `ExternalMerging.ExternalMerger.Spill` | spark-3.1.3-bin-hadoop3.2/python/pyspark/shuffle.py:293-339 | the dictionary in memory becomes the newest layer, every bucket file holds its restriction, the contents are unchanged |
| `ExternalMerging.ExternalMerger.Items` | spark-3.1.3-bin-hadoop3.2/python/pyspark/shuffle.py:341-345 | each key of the contents exactly once with its folded value |
| `ExternalMerging.ExternalMerger.ExternalItems` | spark-3.1.3-bin-hadoop3.2/python/pyspark/shuffle.py:347-366 | the same when something was spilled, including the last spill of what is still in memory |
| `ExternalMerging.ExternalMerger.MergedItems` | spark-3.1.3-bin-hadoop3.2/python/pyspark/shuffle.py:368-386 | one bucket over all layers, oldest first, whether or not it is partitioned again |
| `ExternalMerging.ExternalMerger.ReadFiles` | spark-3.1.3-bin-hadoop3.2/python/pyspark/shuffle.py:369-384 | the files of a bucket merged in order; it gives up exactly at the first file, not the last, after which memory reads above the limit while the guard is open |
| `ExternalMerging.ExternalMerger.Repartition` | spark-3.1.3-bin-hadoop3.2/python/pyspark/shuffle.py:388-409 | a fresh merger of a larger scale holds exactly the bucket that was too large, and has spilled as often as the readings of memory say |
| `ExternalMerging.ExternalMerger.RecursiveMergedItems` | spark-3.1.3-bin-hadoop3.2/python/pyspark/shuffle.py:388-411 | its items are that bucket; the recursion ends because the headroom falls |
| `ExternalMerging.NextFile` | spark-3.1.3-bin-hadoop3.2/python/pyspark/shuffle.py:371-386 | reading one more file folds the next layer into the bucket |
| `ExternalMerging.FilesByHash` | spark-3.1.3-bin-hadoop3.2/python/pyspark/shuffle.py:257-259 | every spilled record is in the file that `hash((key, seed)) % partitions` names |
| `ExternalMerging.SplitByBucket` | spark-3.1.3-bin-hadoop3.2/python/pyspark/shuffle.py:309-322 | the files of a first spill partition the dictionary |
| `ExternalMerging.DumpBuckets` | spark-3.1.3-bin-hadoop3.2/python/pyspark/shuffle.py:324-337 | the files of a later spill hold the per-bucket dictionaries |
| `ExternalMerging.HeadroomFalls` | spark-3.1.3-bin-hadoop3.2/python/pyspark/shuffle.py:379-384 | each re-partitioning strictly lowers a natural-number measure and keeps the scale below the maximum |
| `ExternalMerging.RepartitioningStops` | spark-3.1.3-bin-hadoop3.2/python/pyspark/shuffle.py:379-384 | the guard of re-partitioning, which at scale 1 is open for fewer than 4096 buckets, closes on the way down just when there are at least two buckets: after at most eleven levels, after two with the default 59 |
| `ExternalMerging.OneBucketNeverStops` | spark-3.1.3-bin-hadoop3.2/python/pyspark/shuffle.py:368-411 | with one bucket and the guard open, readings that are low when a limit is taken and high after each file make every nested merger as spilled as its parent, so that it hands its bucket down again, at every depth; handing down and spilling are those of `ReadFiles` and `Repartition` |
| `ExternalMerging.CombineValues` | spark-3.1.3-bin-hadoop3.2/python/pyspark/shuffle.py:233-411 | for every memory schedule, seed and dictionary order: one record per key, equal to one dictionary fold in arrival order |
| `ExternalMerging.CombineCombiners` | spark-3.1.3-bin-hadoop3.2/python/pyspark/shuffle.py:267-411 | the same for merging combiners, from associativity alone |
| `StableSorting.StableSortIsStable` | spark-3.1.3-bin-hadoop3.2/python/pyspark/shuffle.py:458-504 | the reference sort is sorted and keeps the order of equal elements |
| `StableSorting.StableUnique` | spark-3.1.3-bin-hadoop3.2/python/pyspark/shuffle.py:458-504 | two sorted sequences with the same classes in the same order are equal |
| `StableSorting.StableSortUnique` | spark-3.1.3-bin-hadoop3.2/python/pyspark/shuffle.py:458-504 | sorted and stable determine the result |
| `StableSorting.StableSortPermutes` | spark-3.1.3-bin-hadoop3.2/python/pyspark/shuffle.py:458-504 | the reference sort is a permutation |
| `StableSorting.SortedMeans` | spark-3.1.3-bin-hadoop3.2/python/pyspark/shuffle.py:458-504 | sorted in a direction by a key is that the keys go up, or down if reversed |
| `StableSorting.ClassesMean` | spark-3.1.3-bin-hadoop3.2/python/pyspark/shuffle.py:458-504 | stable, in either direction, is that elements with equal keys stay in their order |
| `ExternalSorting.PickLeast` | spark-3.1.3-bin-hadoop3.2/python/pyspark/shuffle.py:504 | the merge takes a least head, from the earliest chunk among equals |
| `ExternalSorting.HeapMerge` | spark-3.1.3-bin-hadoop3.2/python/pyspark/shuffle.py:504 | a k-way stable merge of sorted chunks is the stable sort of their concatenation |
| `ExternalSorting.MergedPieces` | spark-3.1.3-bin-hadoop3.2/python/pyspark/shuffle.py:464-504 | stably sorting consecutive pieces first does not change the stable sort of the whole |
| `ExternalSorting.ExternalSort` | spark-3.1.3-bin-hadoop3.2/python/pyspark/shuffle.py:458-504 | exactly the stable sort by key, for every sequence of memory readings and batch sizes: keys go up, or down if reversed, and elements with equal keys stay in their order |
| `ExternalLists.ExternalList.Append` | spark-3.1.3-bin-hadoop3.2/python/pyspark/shuffle.py:573-578 | the contents grow by the value; fewer than 10240 values are in memory, and nothing is written before there would be as many |
| `ExternalLists.ExternalList.Spill` | spark-3.1.3-bin-hadoop3.2/python/pyspark/shuffle.py:595-607 | contents unchanged, nothing left in memory |
| `ExternalLists.ExternalList.Iterate` | spark-3.1.3-bin-hadoop3.2/python/pyspark/shuffle.py:558-568 | the contents in order |
| `ExternalLists.ExternalList.GetState` | spark-3.1.3-bin-hadoop3.2/python/pyspark/shuffle.py:539-547 | what is pickled determines the contents |
| `ExternalLists.ExternalList.SetState` | spark-3.1.3-bin-hadoop3.2/python/pyspark/shuffle.py:549-556 | unpickling restores them |
| `ExternalLists.ExternalListOfList.Append` | spark-3.1.3-bin-hadoop3.2/python/pyspark/shuffle.py:630-633 | the stored lists grow by one, with the same use of memory |
| `ExternalLists.ExternalListOfList.Iterate` | spark-3.1.3-bin-hadoop3.2/python/pyspark/shuffle.py:626-638 | the stored lists chained; the length is the number of values |
| `ExternalLists.GroupsHoldAllValues` | spark-3.1.3-bin-hadoop3.2/python/pyspark/rdd.py:2218-2228 | under the list aggregator a key maps to the concatenation of its lists |
| `ExternalLists.NewKey` | spark-3.1.3-bin-hadoop3.2/python/pyspark/shuffle.py:657-668 | in sorted records a change of key is a key never seen before |
| `ExternalLists.GroupByKey` | spark-3.1.3-bin-hadoop3.2/python/pyspark/shuffle.py:641-668 | consecutive groups of sorted records are the dictionary of all lists per key |
| `ExternalGrouping.FlatteningKeepsDictionary` | spark-3.1.3-bin-hadoop3.2/python/pyspark/serializers.py:233-240 | writing the entries of a dictionary in flattened pieces keeps it just when none of its lists is empty |
| `ExternalGrouping.FlattenedKeyLost` | spark-3.1.3-bin-hadoop3.2/python/pyspark/serializers.py:233-237 | of any records, a key survives flattening just when it has a value in some of its lists |
| `ExternalGrouping.FoldFlattened` | spark-3.1.3-bin-hadoop3.2/python/pyspark/serializers.py:233-240 | flattened records fold to what the records fold to, without the keys that have no values |
| `ExternalGrouping.NothingDroppedIff` | spark-3.1.3-bin-hadoop3.2/python/pyspark/serializers.py:233-237 | dropping the keys without values changes nothing just when every key has a value |
| `ExternalGrouping.FoldOfSorted` | spark-3.1.3-bin-hadoop3.2/python/pyspark/shuffle.py:795-817 | sorting stably by key does not change the fold, because only the order within a key counts |
| `ExternalGrouping.BucketStream` | spark-3.1.3-bin-hadoop3.2/python/pyspark/shuffle.py:740-745 | a bucket of a sorted spill is sorted, has one to twenty values a record, and folds to the bucket, without the keys that have no values |
| `ExternalGrouping.SplitSorted` | spark-3.1.3-bin-hadoop3.2/python/pyspark/shuffle.py:735-757 | a first sorted spill: sorted flattened bucket files that fold to the keys with values |
| `ExternalGrouping.DumpSorted` | spark-3.1.3-bin-hadoop3.2/python/pyspark/shuffle.py:759-771 | a later sorted spill |
| `ExternalGrouping.ExternalGroupBy.constructor` | spark-3.1.3-bin-hadoop3.2/python/pyspark/shuffle.py:671-707 | an empty group-by over a total order of keys |
| `ExternalGrouping.ExternalGroupBy.MergeCombiners` | spark-3.1.3-bin-hadoop3.2/python/pyspark/shuffle.py:267-291 | for any lists, what is held stays the fold of everything merged, or once files are sorted agrees with it on every key that has a value; sizes are measured by list length |
| `ExternalGrouping.ExternalGroupBy.WriteFiles` | spark-3.1.3-bin-hadoop3.2/python/pyspark/shuffle.py:718-775 | bucket files of the current dictionary, without the keys that have no values if they are sorted; the first spill keeps all files sorted just when it has fewer than 1000 keys |
| `ExternalGrouping.ExternalGroupBy.Spill` | spark-3.1.3-bin-hadoop3.2/python/pyspark/shuffle.py:718-775 | one more layer; an unsorted spill keeps the contents, a sorted one exactly the keys with values |
| `ExternalGrouping.ExternalGroupBy.MergedItems` | spark-3.1.3-bin-hadoop3.2/python/pyspark/shuffle.py:777-793 | one bucket, by the hash merge or the sorted merge, with the same result |
| `ExternalGrouping.ExternalGroupBy.MergeHashedItems` | spark-3.1.3-bin-hadoop3.2/python/pyspark/shuffle.py:781-793 | the hash merge of a bucket |
| `ExternalGrouping.ExternalGroupBy.MergeSortedItems` | spark-3.1.3-bin-hadoop3.2/python/pyspark/shuffle.py:795-817 | the heap merge of sorted files or the external sort of unsorted ones, then grouped, is the same dictionary |
| `ExternalGrouping.ExternalGroupBy.Items` | spark-3.1.3-bin-hadoop3.2/python/pyspark/shuffle.py:341-345 | each key once, of the fold of everything merged, or of its keys with values if anything was spilled sorted |
| `ExternalGrouping.GroupCombiners` | spark-3.1.3-bin-hadoop3.2/python/pyspark/shuffle.py:671-817 | for any lists: each key once, with its values in arrival order, whichever merge each bucket takes; only keys without any value can be missing, none if every key has a value |
| `ExternalGrouping.GroupFullAtTheEnd` | spark-3.1.3-bin-hadoop3.2/python/pyspark/shuffle.py:671-817 | the schedule that finds memory full at the last look, with fewer than 1000 keys, misses exactly the keys without values: having a value for every key is necessary |
| `Serializers.UnpackPack` | spark-3.1.3-bin-hadoop3.2/python/pyspark/serializers.py:561-569 | a signed 32-bit integer survives packing |
| `Serializers.PackUnpack` | spark-3.1.3-bin-hadoop3.2/python/pyspark/serializers.py:561-569 | and every four bytes are the packing of what they unpack to |
| `Serializers.PackIntBytes` | spark-3.1.3-bin-hadoop3.2/python/pyspark/serializers.py:565-569 | the most significant byte comes first; a negative integer is its two's complement |
| `Serializers.PackedConstants` | spark-3.1.3-bin-hadoop3.2/python/pyspark/serializers.py:74-79 | the bytes of one, of the end of a section and of `None`, and the extremes |
| `Serializers.UnpackPackLong` | spark-3.1.3-bin-hadoop3.2/python/pyspark/serializers.py:557-558 | a signed 64-bit integer survives packing |
| `Serializers.PackLongBytes` | spark-3.1.3-bin-hadoop3.2/python/pyspark/serializers.py:557-558 | the most significant byte comes first; a negative integer is its two's complement |
| `Serializers.WriteWithLength` | spark-3.1.3-bin-hadoop3.2/python/pyspark/serializers.py:142-149 | the frame is appended, or the stream is untouched, just when there are at most 2^31 - 1 bytes; an object of exactly 2^31 bytes passes the guard and fails in the packing |
| `Serializers.DumpStream` | spark-3.1.3-bin-hadoop3.2/python/pyspark/serializers.py:131-133 | frames of the objects up to the first that cannot be framed |
| `Serializers.LoadStream` | spark-3.1.3-bin-hadoop3.2/python/pyspark/serializers.py:135-160 | the loop reads what the meaning of the byte stream says, with both ways of ending |
| `Serializers.LoadSpecial` | spark-3.1.3-bin-hadoop3.2/python/pyspark/serializers.py:151-156 | the bytes of -1 end the stream; those of -5 load as `None`, followed by what the rest loads as |
| `Serializers.LoadNegative` | spark-3.1.3-bin-hadoop3.2/python/pyspark/serializers.py:151-160 | any other negative length takes all that is left as one object |
| `Serializers.LoadFrames` | spark-3.1.3-bin-hadoop3.2/python/pyspark/serializers.py:131-160 | framing round trip |
| `Serializers.LoadCut` | spark-3.1.3-bin-hadoop3.2/python/pyspark/serializers.py:135-160 | a stream cut anywhere loads exactly the whole frames before the cut; it ends badly just when the cut is inside a header |
| `Serializers.Batched` | spark-3.1.3-bin-hadoop3.2/python/pyspark/serializers.py:190-208 | the batches are the pieces of the input of the batch size, the last one possibly shorter, or all of it at once, and chain to the input |
| `Serializers.DumpBatched` | spark-3.1.3-bin-hadoop3.2/python/pyspark/serializers.py:210-217 | batching round trip, with success just when every batch fits a frame; after an error what was written loads cleanly as a prefix of the input |
| `Serializers.DumpAutoBatched` | spark-3.1.3-bin-hadoop3.2/python/pyspark/serializers.py:255-271 | the same for every adaptation of the batch size, and no error if every batch fits a frame |
| `Serializers.PiecesWhole` | spark-3.1.3-bin-hadoop3.2/python/pyspark/serializers.py:233-237 | pieces of a list chain to the list and have one to n elements |
| `Serializers.PiecesUnique` | spark-3.1.3-bin-hadoop3.2/python/pyspark/serializers.py:190-208 | chained pieces of one size, the last possibly smaller, are the pieces of the whole |
| `Serializers.FlattenedBatches` | spark-3.1.3-bin-hadoop3.2/python/pyspark/serializers.py:233-237 | the flattened batches are the keyed pieces of all records in order |
| `ChunkedStreams.RoundTrip` | spark-3.1.3-bin-hadoop3.2/python/pyspark/serializers.py:584-641 | receiving a transmission gives back the bytes, in frames that all but the last have the buffer size |
| `ChunkedStreams.ReceiveWire` | spark-3.1.3-bin-hadoop3.2/python/pyspark/serializers.py:586-596 | the wire decodes to exactly its frames and ends in one end marker |
| `ChunkedStreams.TransmissionBytes` | spark-3.1.3-bin-hadoop3.2/python/pyspark/serializers.py:604-632 | the bytes on the wire: frames of the buffer size, each after its length, then the rest after its length if there is any, then the bytes of -1 |
| `ChunkedStreams.ChunkedStream.constructor` | spark-3.1.3-bin-hadoop3.2/python/pyspark/serializers.py:598-602 | an open empty stream over a fresh buffer |
| `ChunkedStreams.ChunkedStream.Write` | spark-3.1.3-bin-hadoop3.2/python/pyspark/serializers.py:604-623 | the bytes written grow by these bytes; the position stays below the buffer size |
| `ChunkedStreams.ChunkedStream.Close` | spark-3.1.3-bin-hadoop3.2/python/pyspark/serializers.py:625-632 | the wrapped stream holds exactly the transmission of all bytes written |
| `ChunkedStreams.Send` | spark-3.1.3-bin-hadoop3.2/python/pyspark/serializers.py:584-641 | any cutting of the bytes into writes gives the same wire, and it is received whole |
| `Shuffling.DecodeSnoc` | spark-3.1.3-bin-hadoop3.2/python/pyspark/rdd.py:2059-2075 | emitting a bucket adds its chunk to one split and to no other |
| `Shuffling.EmitBuckets` | spark-3.1.3-bin-hadoop3.2/python/pyspark/rdd.py:2057-2063 | all pending records of all splits are emitted, in any dictionary order |
| `Shuffling.AddShuffleKey` | spark-3.1.3-bin-hadoop3.2/python/pyspark/rdd.py:2045-2075 | decoding the output for a split gives the input filtered to that split, in order, for every flush and batch adaptation: exactly the records for which `partitionFunc(k) % numPartitions` is the split |
| `Shuffling.PartitionBy` | spark-3.1.3-bin-hadoop3.2/python/pyspark/rdd.py:2018-2087 | all records are kept, each in the split `partitionFunc(k) % numPartitions`; those of each map output stay in order, one output after another in some order; an RDD that already claims the partitioner is returned unchanged |
| `Shuffling.SharesDelivered` | spark-3.1.3-bin-hadoop3.2/python/pyspark/rdd.py:2045-2075 | an order in which the shares of a split arrive is an order of the map outputs |
| `Shuffling.PartitionedShares` | spark-3.1.3-bin-hadoop3.2/python/pyspark/rdd.py:2031-2033 | in a partitioned RDD each partition already is the share of its split |
| `Shuffling.PlacedByRemainder` | spark-3.1.3-bin-hadoop3.2/python/pyspark/rdd.py:2031-2051 | being partitioned is that the remainder of the hash of every key is the number of its partition |
| `Shuffling.ZippedFlatten` | spark-3.1.3-bin-hadoop3.2/python/pyspark/rdd.py:650-673 | zipping partitions keeps all records |
| `Shuffling.JvmUnion` | spark-3.1.3-bin-hadoop3.2/python/pyspark/rdd.py:650-673 | a union zips or appends partitions; either way it holds the records of both sides |
| `Shuffling.LocalFolds` | spark-3.1.3-bin-hadoop3.2/python/pyspark/rdd.py:2142-2147 | combining map partitions separately and merging them in order is one global fold |
| `Shuffling.ReducedShare` | spark-3.1.3-bin-hadoop3.2/python/pyspark/rdd.py:2150-2155 | what a reducer computes, in any arrival order, is its split's part of the global result |
| `Shuffling.CombineByKey` | spark-3.1.3-bin-hadoop3.2/python/pyspark/rdd.py:2090-2155 | end to end: one record per distinct key over all partitions, equal to one dictionary fold, for every flush, spill and arrival order, in the split `partitionFunc(k) % numPartitions` |
| `GroupingByKey.ListsOfKey` | spark-3.1.3-bin-hadoop3.2/python/pyspark/rdd.py:2230-2238 | the lists of a key over all map outputs chain to its values |
| `GroupingByKey.ShareGroups` | spark-3.1.3-bin-hadoop3.2/python/pyspark/rdd.py:2240-2243 | grouping a split's share gives the values of its keys |
| `GroupingByKey.GroupsInOrder` | spark-3.1.3-bin-hadoop3.2/python/pyspark/rdd.py:2240-2245 | the order in which the shares of a split came in is the order of the values of its keys |
| `GroupingByKey.GroupByKeyOf` | spark-3.1.3-bin-hadoop3.2/python/pyspark/rdd.py:2198-2245 | each key once, in its own partition, with exactly its values: those of each map partition in order, one map partition after another |
| `Partitioning.KeepsKeysIff` | spark-3.1.3-bin-hadoop3.2/python/pyspark/rdd.py:397-412 | a task leaves every partitioning intact just when every key it produces occurs in its input: what the flag `preservesPartitioning` has to promise |
| `Partitioning.ClaimMeans` | spark-3.1.3-bin-hadoop3.2/python/pyspark/rdd.py:2603-2607 | a claim is true just when the remainder of the hash of every key is the number of its partition |
| `Partitioning.RDD.constructor` | spark-3.1.3-bin-hadoop3.2/python/pyspark/rdd.py:239-249 | a source RDD claims nothing |
| `Partitioning.RDD.Pipelined` | spark-3.1.3-bin-hadoop3.2/python/pyspark/rdd.py:2905-2931 | fused or not, the contents are the function applied to the contents of the parent; the claim survives exactly if this step preserves it |
| `Partitioning.RDD.FilterRecords` | spark-3.1.3-bin-hadoop3.2/python/pyspark/rdd.py:467-479 | the records that pass, in order, partition by partition; the claim is kept |
| `Partitioning.RDD.MapValues` | spark-3.1.3-bin-hadoop3.2/python/pyspark/rdd.py:2263-2277 | the values of every key are mapped in order; the claim is kept |
| `Partitioning.RDD.FlatMapValues` | spark-3.1.3-bin-hadoop3.2/python/pyspark/rdd.py:2247-2261 | the values of every key are expanded and chained; the claim is kept |
| `Partitioning.RDD.PartitionBy` | spark-3.1.3-bin-hadoop3.2/python/pyspark/rdd.py:2018-2087 | all records are kept, each in the partition `partitionFunc(k) % numPartitions`, which is the new claim; the same object is returned just when it already has an equal partitioner |
| `Partitioning.RDD.Union` | spark-3.1.3-bin-hadoop3.2/python/pyspark/rdd.py:650-673 | the records of both sides; a claim is kept only under the stated condition and then holds |
| `Partitioning.OnlyPartition` | spark-3.1.3-bin-hadoop3.2/python/pyspark/rdd.py:2604-2607 | under a true claim every record of a key is in one partition |
| `Partitioning.RDD.Lookup` | spark-3.1.3-bin-hadoop3.2/python/pyspark/rdd.py:2583-2609 | with or without a partitioner the result is the list of all values of the key |
| `Partitioning.Execute` | spark-3.1.3-bin-hadoop3.2/python/pyspark/rdd.py:2905-2931 | one instruction, on any shared RDDs in any state of caching, means what it says and changes no earlier result |
| `Partitioning.Run` | spark-3.1.3-bin-hadoop3.2/python/pyspark/rdd.py:2905-2931 | any driver program with any sharing and any points of caching: every result equals step-by-step application, every claimed partitioner is true, in terms of the hash of every key, and every result can be used further |
| `RangeSorting.BisectLeft` | spark-3.1.3-bin-hadoop3.2/python/pyspark/rdd.py:791-792 | the search loop computes the recursive search and, on compatibly sorted bounds, the number of bounds below the argument |
| `RangeSorting.BisectMonotone` | spark-3.1.3-bin-hadoop3.2/python/pyspark/rdd.py:791-796 | binary search over any fixed list, sorted or not, is monotone in its argument |
| `RangeSorting.BisectSplits` | spark-3.1.3-bin-hadoop3.2/python/pyspark/rdd.py:791-796 | over suitably sorted bounds it separates the smaller ones from the others |
| `RangeSorting.RangesOrdered` | spark-3.1.3-bin-hadoop3.2/python/pyspark/rdd.py:791-798 | records of a lower range come no later in the requested direction |
| `RangeSorting.RangesAreBetween` | spark-3.1.3-bin-hadoop3.2/python/pyspark/rdd.py:788-796 | where raw bounds compare as their key values do, the bounds below a key of a range are exactly the first ones, as many as the number of the range |
| `RangeSorting.EmptySampleIff` | spark-3.1.3-bin-hadoop3.2/python/pyspark/rdd.py:778-783 | with any records, the sample can come out empty just when there are more than twenty per partition |
| `RangeSorting.FractionOfMany` | spark-3.1.3-bin-hadoop3.2/python/pyspark/rdd.py:781-782 | above twenty records per partition the fraction times the number of records is twenty per partition |
| `RangeSorting.SampledKeysRecorded` | spark-3.1.3-bin-hadoop3.2/python/pyspark/rdd.py:782-783 | then the sample is taken with seed 1 and that fraction: record i of partition p by draw i after the ten mixing calls, from the seed of that partition |
| `RangeSorting.PositionEven` | spark-3.1.3-bin-hadoop3.2/python/pyspark/rdd.py:788 | the position is the last one at or before i parts in n of the length |
| `RangeSorting.BoundsSorted` | spark-3.1.3-bin-hadoop3.2/python/pyspark/rdd.py:783-789 | the bounds are sampled keys in the order of `keyfunc` |
| `RangeSorting.Bounds` | spark-3.1.3-bin-hadoop3.2/python/pyspark/rdd.py:783-789 | one fewer than partitions, bound i being the key at or just before i + 1 parts in n of the sampled keys in ascending order; in order; none exist just when the sample is empty |
| `RangeSorting.FewRecordsAllSampled` | spark-3.1.3-bin-hadoop3.2/python/pyspark/rdd.py:781-783 | of at most twenty records per partition every one is sampled |
| `RangeSorting.AllShares` | spark-3.1.3-bin-hadoop3.2/python/pyspark/rdd.py:798 | the ranges together hold every record once |
| `RangeSorting.SortByKey` | spark-3.1.3-bin-hadoop3.2/python/pyspark/rdd.py:742-798 | the concatenation is a permutation in global order of the keys, ascending or descending; with several partitions there are exactly that many, and each record is in the range of its key, between the bounds that delimit it, as the partitioner claims; it fails just when there are several partitions, some record and an empty sample, which takes more than twenty records per partition |
| `StatCounters.MergedMean` | spark-3.1.3-bin-hadoop3.2/python/pyspark/statcounter.py:71-77 | all three branches compute the weighted mean of the two samples |
| `StatCounters.SummaryDescribes` | spark-3.1.3-bin-hadoop3.2/python/pyspark/statcounter.py:46-54 | one-pass merging gives the mean and the sum of squared deviations |
| `StatCounters.CombineIsConcat` | spark-3.1.3-bin-hadoop3.2/python/pyspark/statcounter.py:57-85 | merging two summaries is summarizing the concatenation |
| `StatCounters.SummaryPermuted` | spark-3.1.3-bin-hadoop3.2/python/pyspark/statcounter.py:46-85 | the result depends only on the multiset of values |
| `StatCounters.DescriptionUnique` | spark-3.1.3-bin-hadoop3.2/python/pyspark/statcounter.py:46-85 | count, mean and squared deviations are determined by the multiset |
| `StatCounters.StatCounter.constructor` | spark-3.1.3-bin-hadoop3.2/python/pyspark/statcounter.py:33-43 | the statistics of the given values |
| `StatCounters.StatCounter.Merge` | spark-3.1.3-bin-hadoop3.2/python/pyspark/statcounter.py:46-54 | count, mean, squared deviations and extremes of one value more |
| `StatCounters.StatCounter.MergeStats` | spark-3.1.3-bin-hadoop3.2/python/pyspark/statcounter.py:57-85 | count, mean, squared deviations and extremes of the concatenation; given itself it fails and changes nothing |
| `StatCounters.StatCounter.Total` | spark-3.1.3-bin-hadoop3.2/python/pyspark/statcounter.py:97-98 | the sum of all values merged |
| `StatCounters.StatCounter.Max` | spark-3.1.3-bin-hadoop3.2/python/pyspark/statcounter.py:103-104 | the greatest value merged, minus infinity just for none |
| `StatCounters.StatCounter.Min` | spark-3.1.3-bin-hadoop3.2/python/pyspark/statcounter.py:100-101 | the least value merged, infinity just for none |
| `StatCounters.DescribesFour` | spark-3.1.3-bin-hadoop3.2/python/pyspark/statcounter.py:134-145 | 1, 2, 3 and 4 have mean 5/2, sum 10 and squared deviations 5 |
| `StatCounters.StatCounter.Variance` | spark-3.1.3-bin-hadoop3.2/python/pyspark/statcounter.py:107-111 | the mean squared deviation, NaN just for no values |
| `StatCounters.StatCounter.SampleVariance` | spark-3.1.3-bin-hadoop3.2/python/pyspark/statcounter.py:117-121 | divided by one less, NaN just for at most one value |
| `StatCounters.Evaluate` | spark-3.1.3-bin-hadoop3.2/python/pyspark/statcounter.py:57-85 | any tree of merges gives the statistics of its leaves |
| `StatCounters.Stats` | spark-3.1.3-bin-hadoop3.2/python/pyspark/rdd.py:1237-1245 | the statistics of all partitions; nothing for an RDD without partitions |
| `Aggregating.Aggregate` | spark-3.1.3-bin-hadoop3.2/python/pyspark/rdd.py:1106-1116 | for compatible operators one fold over all elements; for any others the partial results combined from zero in partition order |
| `Aggregating.AggregateIgnoresPartitions` | spark-3.1.3-bin-hadoop3.2/python/pyspark/rdd.py:1081-1116 | if combining in a folded value is folding on, and zero adds nothing, the result is one fold over all elements: the partitioning does not matter |
| `Aggregating.FoldLeftInOrder` | spark-3.1.3-bin-hadoop3.2/python/pyspark/rdd.py:1106-1111 | a fold takes every element once, from left to right |
| `Aggregating.ReduceAppend` | spark-3.1.3-bin-hadoop3.2/python/pyspark/rdd.py:970-1000 | reducing parts and then their results is reducing the whole |
| `Aggregating.ReduceIsFold` | spark-3.1.3-bin-hadoop3.2/python/pyspark/rdd.py:1171 | for a monoid the final reduction is the fold from zero |
| `Aggregating.ReduceAll` | spark-3.1.3-bin-hadoop3.2/python/pyspark/rdd.py:970-1000 | the left-to-right reduction of all elements, from associativity alone; an error just for an empty RDD |
| `Aggregating.ReduceByKeyConserves` | spark-3.1.3-bin-hadoop3.2/python/pyspark/rdd.py:1873-1891 | reducing by key conserves the combined total |
| `Aggregating.ReduceLevel` | spark-3.1.3-bin-hadoop3.2/python/pyspark/rdd.py:1162-1169 | one level of the tree conserves the total and has the stated number of partitions |
| `Aggregating.LevelShrinks` | spark-3.1.3-bin-hadoop3.2/python/pyspark/rdd.py:1157-1158 | another level leaves more than one partition and at least two fewer, so the loop ends |
| `Aggregating.AnotherLevelIff` | spark-3.1.3-bin-hadoop3.2/python/pyspark/rdd.py:1158 | there is another level just when `n (scale - 1)` is above `scale * scale` |
| `Aggregating.TreeAggregate` | spark-3.1.3-bin-hadoop3.2/python/pyspark/rdd.py:1118-1171 | equals the flat aggregate for any partition count, depth and scale; an error just for depth below one |
| `Taking.TruncatedPrefix` | spark-3.1.3-bin-hadoop3.2/python/pyspark/rdd.py:1551-1566 | cutting every partition of a job at the missing number loses none of the first elements |
| `Taking.NeededIsLeast` | spark-3.1.3-bin-hadoop3.2/python/pyspark/rdd.py:1532-1571 | the fewest leading partitions that hold the elements |
| `Taking.NumPartsToTry` | spark-3.1.3-bin-hadoop3.2/python/pyspark/rdd.py:1537-1550 | one at first, then between one and four times the partitions scanned: four times while nothing is found, else as many more as would yield one and a half times the number at the rate so far, rounded down |
| `Taking.Take` | spark-3.1.3-bin-hadoop3.2/python/pyspark/rdd.py:1508-1571 | exactly the first elements; consecutive jobs from the first partition on, no partition twice, at least the k that are needed and at most max(1, 5 (k - 1)) of them |
| `Histograms.EvenIndexIffExactlyEven` | spark-3.1.3-bin-hadoop3.2/python/pyspark/rdd.py:1365-1366 | the constant-time index agrees with the search for every value in range just when the buckets are exactly even |
| `Histograms.PlacesRightIff` | spark-3.1.3-bin-hadoop3.2/python/pyspark/rdd.py:1359-1370 | every value is counted in its bucket just when exact evenness or the search is used |
| `Histograms.AlmostEven` | spark-3.1.3-bin-hadoop3.2/python/pyspark/rdd.py:1346-1354 | buckets that pass the tolerance test and place a value in the wrong bucket |
| `Histograms.CountsOfBuckets` | spark-3.1.3-bin-hadoop3.2/python/pyspark/rdd.py:1359-1370 | after folding the last two counters, each counter is the number of elements of its half-open (last: closed) interval |
| `Histograms.FallsMeans` | spark-3.1.3-bin-hadoop3.2/python/pyspark/rdd.py:1359-1370 | intervals are closed on the left and open on the right, the last one closed on both sides |
| `Histograms.EvenWithin` | spark-3.1.3-bin-hadoop3.2/python/pyspark/rdd.py:1348-1353 | buckets look even just when no two widths differ by 1e-10 or more |
| `Histograms.CountsAddUp` | spark-3.1.3-bin-hadoop3.2/python/pyspark/rdd.py:1359-1375 | the counters add up to the number of elements in range, even where the index is wrong |
| `Histograms.CountsAppend` | spark-3.1.3-bin-hadoop3.2/python/pyspark/rdd.py:1372-1375 | merging the counters of two parts counts both |
| `Histograms.HistogramOf` | spark-3.1.3-bin-hadoop3.2/python/pyspark/rdd.py:1329-1375 | given boundaries: an error exactly for fewer than two, for some that do not increase, or for no partitions; otherwise the counters of the lookup used, which are those of the intervals for exactly even buckets and whenever two widths differ by 1e-10 or more |
| `Histograms.EvenBuckets` | spark-3.1.3-bin-hadoop3.2/python/pyspark/rdd.py:1321-1327 | generated boundaries are exactly even and end at the maximum |
| `Histograms.HistogramEven` | spark-3.1.3-bin-hadoop3.2/python/pyspark/rdd.py:1282-1375 | a number n of buckets: the outer boundaries are the extremes; one bucket with all that is comparable if n is 1 or the extremes are equal, else n exactly even buckets with the right counts |
| `Joining.JoinCount` | spark-3.1.3-bin-hadoop3.2/python/pyspark/join.py:38-97 | multiplicity of every row in the relational join |
| `Joining.MatchedRows` | spark-3.1.3-bin-hadoop3.2/python/pyspark/join.py:46-97 | every kind of join holds each pair of values of a key as often as both occur, and no row without a value |
| `Joining.UnmatchedLeftRows` | spark-3.1.3-bin-hadoop3.2/python/pyspark/join.py:56-97 | a left row whose key is not on the right is in the left and the full outer join as often as it occurs, and in no other |
| `Joining.UnmatchedRightRows` | spark-3.1.3-bin-hadoop3.2/python/pyspark/join.py:56-97 | a right row whose key is not on the left is in the right and the full outer join as often as it occurs, and in no other |
| `Joining.DispatchFullOuter` | spark-3.1.3-bin-hadoop3.2/python/pyspark/join.py:84-97 | all pairs of the two sides of a key, a missing side standing for one absent value |
| `Joining.GroupSides` | spark-3.1.3-bin-hadoop3.2/python/pyspark/join.py:38-41 | the tagged values of a key are its values on either side |
| `Joining.GroupsJoin` | spark-3.1.3-bin-hadoop3.2/python/pyspark/join.py:38-97 | grouping the tagged union and dispatching every group computes the join |
| `Joining.PythonJoin` | spark-3.1.3-bin-hadoop3.2/python/pyspark/join.py:38-97 | all four joins: exactly the rows of the relational definition, for any partitioning of the inputs, each in the split `partitionFunc(k) % numPartitions` |
| `Cogrouping.TaggedValues` | spark-3.1.3-bin-hadoop3.2/python/pyspark/join.py:101-104 | values with tag i are the values of RDD i |
| `Cogrouping.Dispatch` | spark-3.1.3-bin-hadoop3.2/python/pyspark/join.py:107-111 | one buffer per RDD, each in arrival order |
| `Cogrouping.UnionAll` | spark-3.1.3-bin-hadoop3.2/python/pyspark/join.py:104 | the tagged union of all RDDs; a claim common to all survives just when every union zipped, and then holds |
| `Cogrouping.PythonCogroup` | spark-3.1.3-bin-hadoop3.2/python/pyspark/join.py:100-113 | each key of any RDD once, in its own partition, with exactly its values in every RDD |
| `Sampling.RDDSamplerBase.InitRandomGenerator` | spark-3.1.3-bin-hadoop3.2/python/pyspark/rddsampler.py:30-35 | seeded by partition and mixed ten times |
| `Sampling.StartRecorded` | spark-3.1.3-bin-hadoop3.2/python/pyspark/rddsampler.py:30-35 | before the first draw of partition p the generator has the seed mixed with p and ten calls of `randint`, and nothing else |
| `Sampling.RDDRangeSampler.Func` | spark-3.1.3-bin-hadoop3.2/python/pyspark/rddsampler.py:93-97 | one draw per record, in order; the records whose draw is in the range |
| `Sampling.RDDSampler.Func` | spark-3.1.3-bin-hadoop3.2/python/pyspark/rddsampler.py:80-83 | without replacement: the records whose draw is below the fraction, in order |
| `Sampling.SelectedRecorded` | spark-3.1.3-bin-hadoop3.2/python/pyspark/rddsampler.py:93-97 | item i is kept just when draw i after the ten calls, from the seed mixed with the number of the partition, is within the bounds |
| `Sampling.Sample` | spark-3.1.3-bin-hadoop3.2/python/pyspark/rdd.py:521 | the sample without replacement of every partition |
| `Sampling.SampledRecorded` | spark-3.1.3-bin-hadoop3.2/python/pyspark/rdd.py:521 | record i of partition p is in the sample just when draw i of that partition is below the fraction |
| `Sampling.SampledAll` | spark-3.1.3-bin-hadoop3.2/python/pyspark/rdd.py:494-521 | a fraction of one keeps every record |
| `RandomSplitting.Cumulative` | spark-3.1.3-bin-hadoop3.2/python/pyspark/rdd.py:548-551 | bound i is the share of the first i weights in their total; a division by zero just when there are weights and they add up to zero |
| `RandomSplitting.NormalizedSteps` | spark-3.1.3-bin-hadoop3.2/python/pyspark/rdd.py:548-551 | the bounds go from 0 to 1 in normalized steps |
| `RandomSplitting.NormalizedTimesTotal` | spark-3.1.3-bin-hadoop3.2/python/pyspark/rdd.py:548-551 | bound i times the total is the sum of the first i weights |
| `RandomSplitting.HitsAndDrops` | spark-3.1.3-bin-hadoop3.2/python/pyspark/rdd.py:548-555 | a draw is selected once more than the bounds step down across it |
| `RandomSplitting.ExactlyOneSplitIff` | spark-3.1.3-bin-hadoop3.2/python/pyspark/rdd.py:548-555 | every draw is selected by exactly one split just when the bounds never step down inside the unit interval |
| `RandomSplitting.StepsBackIff` | spark-3.1.3-bin-hadoop3.2/python/pyspark/rdd.py:548-555 | that is a condition on the weights alone: none takes the partial sums back from above nothing to below the total |
| `RandomSplitting.SplitsIff` | spark-3.1.3-bin-hadoop3.2/python/pyspark/rdd.py:548-555 | weights that meet the condition are exactly those that put a record into exactly one split whatever is drawn |
| `RandomSplitting.SameSignNeverStepsBack` | spark-3.1.3-bin-hadoop3.2/python/pyspark/rdd.py:548-555 | weights of one sign meet it |
| `RandomSplitting.NegativeWeightDuplicates` | spark-3.1.3-bin-hadoop3.2/python/pyspark/rdd.py:548-555 | the weights 1, -1/2, 1/2 do not: a draw of 3/4 is selected twice |
| `RandomSplitting.NothingLost` | spark-3.1.3-bin-hadoop3.2/python/pyspark/rdd.py:553-555 | whatever the weights, no record is lost |
| `RandomSplitting.ChosenAll` | spark-3.1.3-bin-hadoop3.2/python/pyspark/rdd.py:553-555 | if every draw is selected once, the splits of a partition hold every record once |
| `RandomSplitting.RandomSplit` | spark-3.1.3-bin-hadoop3.2/python/pyspark/rdd.py:523-555 | split j holds in order the records drawn between bounds j and j + 1; no record is lost, and for weights that never step back, such as those of one sign, each is in exactly one split |
| `RandomSplitting.SplitsRecorded` | spark-3.1.3-bin-hadoop3.2/python/pyspark/rdd.py:553-555 | record i of partition p is in split j just when draw i of that partition falls between bounds j and j + 1 |

## Left out

- The JVM: Py4J, schedulers and transport. Assumed is only that a chunk tagged with a split arrives once in that split, that map outputs arrive in any order but each of them whole, that `coalesce(1)` loses nothing, and that `collect` returns partitions in order.
- Files, directories, compression and garbage collection: a spill file is the sequence of its records.
- Pickling: `dumps` and `loads` are an invertible pair; in the shuffle `dumps` always returns bytes.
- Generators: an iterator is the sequence it yields. Interleaving a half-read iterator with later writes is not modelled, nor is the file offset that copies of an `ExternalList` descriptor share (shuffle.py:562).
- Mutable combiners: `mergeValue` and `mergeCombiners` are functions on values, so the aliasing of a list that is extended in place is not captured.
- Dictionaries are fields of map type that methods reassign; hash collisions inside Python are not modelled.
- User functions are pure: a transformation that gives a different result when a lost or uncached partition is computed again is not modelled.
- Inheritance: `ExternalGroupBy` and `ExternalListOfList` repeat what they inherit; `RDD` and `PipelinedRDD` are one class with two constructors.
- `Partitioning` uses one type of values for all RDDs of a program, so `values()` appears only inside `lookup`; `_reserialize` in `union` is an identity map and is not modelled.
- ExternalMerging.ExternalMerger.Items: requires at least two buckets, or a scale at which the guard is closed, because with one bucket it may not end; `OneBucketNeverStops` gives the readings.
- ExternalMerging.ExternalMerger.ExternalItems: requires the same, for the same reason.
- ExternalMerging.ExternalMerger.MergedItems: requires the same, for the same reason.
- ExternalMerging.ExternalMerger.RecursiveMergedItems: requires the same, for the same reason.
- ExternalMerging.CombineValues: requires the same, for the same reason.
- ExternalMerging.CombineCombiners: requires the same, for the same reason.
- ExternalMerging.OneBucketNeverStops: chains the contracts of `ReadFiles` and `Repartition` over the scale, the spills and the readings of memory, not over the objects, which could not end.
- ExternalGrouping.GroupCombiners: requires a total order on keys; the code compares keys only once something has been spilled sorted or is merged sorted, and then fails on keys that do not compare.
- GroupingByKey.GroupByKeyOf: requires a total order on keys, for the same reason.
- Joining.PythonJoin: requires a total order on keys, for the same reason.
- Cogrouping.PythonCogroup: requires a total order on keys, for the same reason, and at least one RDD, as `reduce` does; gives the values of a key in an RDD as a multiset, not in the order of delivery.
- ExternalGrouping.ExternalGroupBy.constructor: requires a total order on keys, for the same reason.
- Serializers.DumpBatched: an object that makes `dumps` raise an exception of its own is not modelled; returning `None` is.
- Serializers.Batched: the branch for objects with `__getslice__`, which no Python 3 sequence has, is not modelled.
- ChunkedStreams.ChunkedStream.constructor: requires a positive buffer size below 2^31; with size 0 the loop of `write` would not end.
- Shuffling.AddShuffleKey: requires between 1 and 2^63 partitions, as packing the split number needs.
- RangeSorting.SortByKey: comparing a raw bound with a key value is only assumed to respect the order of key values; zero partitions are excluded.
- RandomSplitting.RandomSplit: the generator is any deterministic one with draws in [0, 1); the quality of the sampling is not modelled.
- Sampling.RDDSampler.Func: sampling with replacement is not modelled.
- Sampling.Sample: sampling with replacement is not modelled.
- Floating point: statistics, histogram steps, batch sizes and cumulative weights are exact reals, NaN and `None` elements are absent values, and infinities occur only as initial extremes.
- Histograms.HistogramOf: elements that do not compare or subtract, and boundaries of other types than numbers, are not modelled.
- `takeSample`, stratified sampling, `top`, `countApproxDistinct` and similar: they add easy members or statistics.
- Barrier stages, checkpoint files, broadcast variables, accumulators, profiles and the profiler.
- `cloudpickle`, `ml`, `mllib`, `sql`, `streaming`, the worker and daemon processes, and the Airflow and Spark scripts of the repository: process control, wrappers or plumbing.
