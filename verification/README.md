# Verified model of a peer-to-peer streaming system

This project models the parts of the system whose correctness is least obvious from their text, and
proves what they are meant to compute.  `dafny verify dfyconfig.toml` checks all of it.

* **Key agreement** (`Modular`, `Limbs`, `Multiply`, `Reduce`, `FieldOps`, `Bits`, `Packing`,
  `Rfc7748`, `Montgomery`, `Inversion`, `Fermat`, `Primality`, `FieldPrime`, `Projective`,
  `Curve25519`).  The whole of `curve25519_donna` on arrays of signed 64-bit limbs, from the
  schoolbook product with its doubled terms and the carry loops up to the bytes that come out.
  Every operation is proved within int64.
  The reference is section 5 of RFC 7748, written down independently in `Rfc7748`.  That the modulus
  is prime is proved from a certificate.
* **MD5** (`Words`, `Md5`, `Streaming`, `Md5Hash`).  The 64 steps of the block function against section
  3.4 of RFC 1321, the byte order and the bit operations, and the streaming interface: however a
  message is cut into pieces, the digest is that of the padded message.
* **Text encodings** (`Transcoding`, `Utf`).  The UTF-8 and UTF-16 transcoders of the ODBC driver
  against the grammar of section 4 of RFC 3629 and section 2 of RFC 2781.
* **Caches** (`KeyedList`, `LruCache`, `StatementsCache`).  The least-recently-used cache of the media
  server and the cache of prepared statements, each a map, a linked list and iterators between
  them, against a plain list; for the media server also what is cached and evicted after every run,
  said of the operations alone, and for the statements who owns each object over whole runs.
* **Disk cache** (`DiskCache`).  The chunk allocator: which slot of the file holds which chunk of
  which channel, how slots are given out and taken back, what a write stores and loses, and when it
  fails, by the outcomes of the file operations.
* **Player session** (`P2pProcessor`).  The state machine behind the local HTTP server of the player,
  and what each connection is sent over whole runs.
* **SQL text and connection strings** (`SqlText`, `Quoting`, `ConnectionString`).  Placeholder
  substitution of the MySQL and PostgreSQL drivers, and the parser of connection strings against the
  ways in which a text can be laid out, right or wrong.

Code that changes state is modelled by classes and methods on arrays and fields, proved against
functions that say what the state means; what the system promises is then proved of those functions.
Files, sockets, clocks, free disk space and random choices are parameters or arbitrary values.

Four properties are false of the code as it stands and are stated with their exact condition.
Erasing a slot of the disk cache compares the number of the slot with the number of chunks of the
channel; `EraseBreaks` shows a channel that keeps a chunk in a free slot, and `EraseKeepsIff` that
this happens exactly when the slot is not below that number.  So the theorems about writes ask for
channels of at least as many chunks as there are slots (`Fits`, `Covers`).  A write checks the number
of its piece only against channels that are known; for a new one it may index the chunk table past
its end, exactly if the chunk is not below the number of chunks (`Cache.Write`, `PastTableExample`).
The loop of the connection string parser after a property does not move at a character other than a
blank or a semicolon; `NeverStopsIffStray` says for which texts no number of turns is enough, and
the parser of the model answers `Looping` there.  A player that asks to switch to another channel
while one runs is closed before it is answered (`SwitchLost`); `Processor.ProcessSwitch` says exactly
when it waits for its answer.

## Model

| member | source | states |
|---|---|---|
| `Curve25519.Donna` | src/lib/common/curve25519.cpp:567-584 | for every secret and base point the 32 output bytes, little-endian, are X25519 of section 5 of RFC 7748 on the clamped scalar and the u-coordinate without bit 255 |
| `Curve25519.DonnaIsX25519` | src/lib/common/curve25519.cpp:567-584 | for every scalar and every u the 256 steps of the code, one more than the reference has, give X25519 of section 5 of RFC 7748 |
| `Curve25519.ClampScalar` | src/lib/common/curve25519.cpp:573-576 | the three mask operations are the clamping of section 5 of RFC 7748: a multiple of 8 between 2^254 and 2^255 |
| `Curve25519.ClampBits` | src/lib/common/curve25519.cpp:574-576 | bit 255 of a clamped scalar is clear, which is why the ladder has one leading zero step |
| `Projective.LeadingZero` | src/lib/common/curve25519.cpp:459-491 | a leading zero bit does not change the affine result: the 256 steps of the code give what the 255 of RFC 7748 give, for every u |
| `Fermat.LittleTheorem` | src/lib/common/curve25519.cpp:500-565 | a^(p-1) is 1 modulo a prime p that does not divide a, so that z^(p-2) is the inverse of z |
| `FieldPrime.FieldModulusIsPrime` | src/lib/common/curve25519.cpp:500-565 | the modulus 2^255 - 19 of the field is prime, without which z^(p-2) would not be the inverse of z |
| `Primality.Pocklington` | src/lib/common/curve25519.cpp:500-565 | the criterion behind it: an element of prime order q that stays away from 1 modulo every divisor makes n prime, unless (n - 1) / q splits as two factors would have it |
| `Primality.OrderDivides` | src/lib/common/curve25519.cpp:500-565 | modulo a prime d, an element other than 1 whose power to the prime q is 1 makes q divide d - 1 |
| `Projective.StepScales` | src/lib/common/curve25519.cpp:394-440 | a ladder step maps equal projective points to equal projective points |
| `Rfc7748.LoopIsLadder` | src/lib/common/curve25519.cpp:459-491 | the reference loop with its deferred swaps and the ladder that branches on each bit compute the same points |
| `Rfc7748.LadderResultIs` | src/lib/common/curve25519.cpp:448-495 | the result of the reference loop is that of the branching ladder |
| `Montgomery.Cmult` | src/lib/common/curve25519.cpp:448-495 | from the limbs of q and the 32 bytes of n the whole ladder is run: the residues of the result are those of the reference ladder after 256 bits of n, with reduced limbs and no int64 overflow on the way |
| `Montgomery.LadderBytes` | src/lib/common/curve25519.cpp:459-491 | the outer loop: 32 bytes from the most significant one down |
| `Montgomery.LadderByte` | src/lib/common/curve25519.cpp:461-490 | the inner loop: eight steps, high bit first, with the two sets of arrays changing places after each |
| `Montgomery.LadderBit` | src/lib/common/curve25519.cpp:462-474 | one bit is one step of the reference ladder, with the roles of nQ and (n+1)Q exchanged for a 1 |
| `Montgomery.Fmonty` | src/lib/common/curve25519.cpp:394-440 | one differential addition and doubling: on residues the step of section 5 of RFC 7748, with output limbs that the next step can take |
| `Montgomery.DoubleRefines` | src/lib/common/curve25519.cpp:426-439 | the doubling half computes the x2 and z2 of the reference |
| `Montgomery.CrossRefines` | src/lib/common/curve25519.cpp:402-424 | the addition half computes the x3 and z3 of the reference; the sign of CB - DA vanishes in the square |
| `Inversion.Crecip` | src/lib/common/curve25519.cpp:500-565 | z^(p-2) mod p for every z whose limbs are at most 2^26, by the addition chain |
| `Inversion.SquareRun` | src/lib/common/curve25519.cpp:500-565 | n squarings raise the exponent to 2^n times itself |
| `Inversion.AppendOnes` | src/lib/common/curve25519.cpp:500-565 | one link of the chain: an exponent of a ones in binary and one of b ones give one of a + b ones |
| `Inversion.ChainEnd` | src/lib/common/curve25519.cpp:557-564 | the last five squarings and z^11 complete the exponent p - 2 |
| `FieldOps.Fmul` | src/lib/common/curve25519.cpp:233-240 | the product mod p with reduced limbs, for factors within 2^26 |
| `FieldOps.Fsquare` | src/lib/common/curve25519.cpp:300-307 | the square mod p with reduced limbs |
| `FieldOps.Fsum` | src/lib/common/curve25519.cpp:60-66 | the sum of the values, limb by limb |
| `FieldOps.Fdifference` | src/lib/common/curve25519.cpp:71-76 | the difference in minus output of the values |
| `FieldOps.FscalarProduct` | src/lib/common/curve25519.cpp:79-84 | the value times a scalar |
| `Multiply.Fproduct` | src/lib/common/curve25519.cpp:91-192 | the 19 coefficients of the product, each the sum of its limb products with the odd-odd ones doubled, none outside int64 |
| `Multiply.FsquareInner` | src/lib/common/curve25519.cpp:242-298 | coefficient by coefficient the same as the product of a number with itself |
| `Multiply.ProductValue` | src/lib/common/curve25519.cpp:91-192 | coefficients of that form stand for the product of the two values |
| `Reduce.FreduceDegree` | src/lib/common/curve25519.cpp:195-205 | folding the high limbs in keeps the value mod p and bounds every limb by 2^62 |
| `Reduce.FreduceCoefficients` | src/lib/common/curve25519.cpp:209-226 | for limbs up to 2^62 the loop ends after at most three passes, keeps the value mod p, and leaves limbs 0 to 9 within 2^25 and limb 10 zero |
| `Reduce.ReducePass` | src/lib/common/curve25519.cpp:212-224 | one pass: the value mod p, the bounds after it, and when a carry out of limb 9 is left |
| `Reduce.CarryEven` | src/lib/common/curve25519.cpp:215-218 | truncating division and the rounding through the sign word carry an even limb to within 2^25 |
| `Packing.Fexpand` | src/lib/common/curve25519.cpp:310-328 | 32 bytes become limbs of the value without bit 255, each limb within its radix |
| `Packing.Fcontract` | src/lib/common/curve25519.cpp:333-383 | for reduced limbs the borrow loop ends after at most two passes and the bytes stand for the value plus 0 or p; every OR joins disjoint bits |
| `Packing.Normalize` | src/lib/common/curve25519.cpp:337-355 | the borrow loop: limbs within their radix, the same value mod p, at most two passes |
| `Packing.ContractReduced` | src/lib/common/curve25519.cpp:333-383 | the bytes are the canonical residue, below p |
| `Packing.RoundTrip` | src/lib/common/curve25519.cpp:310-383 | expanding and contracting gives the same 32 bytes back if bit 255 is clear |
| `Md5.Process` | src/lib/common/md5.cpp:137-316 | one block: the registers become the compression of section 3.4 of RFC 1321 of the old registers and the 16 little-endian words of the block |
| `Md5.RunRounds` | src/lib/common/md5.cpp:205-307 | the 64 operations in source order are the 64 steps of section 3.4 of RFC 1321, with its word order, shifts, table and change of registers |
| `Md5.ConstantsAreTable` | src/lib/common/md5.cpp:70-134 | the constants T1 to T64 of the code, half of them written as complements, are the table of section 3.4 of RFC 1321 |
| `Md5.OperationIs` | src/lib/common/md5.cpp:203-215 | one operation as the code computes it is that of section 3.4 of RFC 1321, for all values |
| `Md5.Arrange` | src/lib/common/md5.cpp:190-200 | the 16 words of a block are its bytes by fours, low byte first |
| `Words.FSelects` | src/lib/common/md5.cpp:208 | in each bit F is y where x has it and z where it does not |
| `Words.GSelects` | src/lib/common/md5.cpp:234 | in each bit G is x where z has it and y where it does not |
| `Words.HParity` | src/lib/common/md5.cpp:260 | a bit is in H exactly if it is in an odd number of x, y and z |
| `Words.IParity` | src/lib/common/md5.cpp:286 | a bit is in I exactly if it is in y or is in x or not in z, and not both |
| `Words.RotateBy7` | src/lib/common/md5.cpp:203 | rotating by 7 is multiplying by 2^7 and adding the quotient by 2^25; the like for each of the other 15 shifts in use |
| `Words.WordValue` | src/lib/common/md5.cpp:198-199 | the number that four bytes stand for, low byte first |
| `Words.WordOfBytes` | src/lib/common/md5.cpp:385-386 | the four bytes of a word, low byte first, make the word again |
| `Words.ShiftedByteIs` | src/lib/common/md5.cpp:385-386 | what the code shifts and masks out of a word are those four bytes |
| `Words.ToByteOfValue` | src/lib/common/md5.cpp:378-380 | a byte is the number modulo 256 |
| `Streaming.State.constructor` | src/lib/common/md5.cpp:318-326 | an empty message, with the registers of section 3.3 of RFC 1321 |
| `Streaming.State.Append` | src/lib/common/md5.cpp:328-364 | after any append whose offset and length add up within int the registers are the fold over the full blocks of everything appended, the buffer holds the rest and the two counters its bit length mod 2^64 |
| `Streaming.AddLength` | src/lib/common/md5.cpp:334-343 | the two counter words keep 8 times the length mod 2^64, with the carry between them |
| `Streaming.ProcessBlocks` | src/lib/common/md5.cpp:357-359 | the loop over full blocks in the input, each by the block function of the code |
| `Streaming.State.FillBuffer` | src/lib/common/md5.cpp:345-355 | the initial partial block: kept, or completed and processed |
| `Streaming.State.Finish` | src/lib/common/md5.cpp:366-384 | padding as in sections 3.1 and 3.2 of RFC 1321 for every length: the whole padded message is processed |
| `Streaming.PadBytes` | src/lib/common/md5.cpp:369-382 | one byte 0x80 and zeros up to 56 mod 64 |
| `Streaming.SaveLength` | src/lib/common/md5.cpp:378-380 | the eight length bytes are 8 times the length, little-endian |
| `Streaming.SameMessageSameState` | src/lib/common/md5.cpp:328-364 | two states of the same message agree on all that later calls read, however the message was cut |
| `Md5Hash.OutputReads` | src/lib/common/md5.cpp:385-386 | the 16 bytes of the digest, read by fours with the low byte first, are the four registers in order |
| `Md5Hash.Hash` | src/lib/common/md5.cpp:318-387 | for every way of cutting a message into pieces the digest that init, append, the block function and finish compute is that of the whole message by RFC 1321: read by fours with the low byte first, its bytes are the registers after the padded message |
| `Utf.Next8` | contrib/cppdb/drivers/odbc_backend.cpp:65-157 | decodes the first character by the grammar of section 4 of RFC 3629, or reports that there is none; never reads past the end |
| `Utf.Encode8` | contrib/cppdb/drivers/odbc_backend.cpp:164-190 | the octets of section 3 of RFC 3629 |
| `Utf.Next16` | contrib/cppdb/drivers/odbc_backend.cpp:210-225 | decodes the first character by section 2.2 of RFC 2781 |
| `Utf.Encode16` | contrib/cppdb/drivers/odbc_backend.cpp:234-248 | the units of section 2.1 of RFC 2781 |
| `Utf.CombineSurrogate` | contrib/cppdb/drivers/odbc_backend.cpp:205-208 | the value of a surrogate pair |
| `Utf.CharEncodes` | contrib/cppdb/drivers/odbc_backend.cpp:65-190 | every well-formed octet sequence is the encoding of its value |
| `Utf.EncodesChar` | contrib/cppdb/drivers/odbc_backend.cpp:65-190 | the encoding of every scalar value is well formed and has that value |
| `Utf.FirstIsUnique` | contrib/cppdb/drivers/odbc_backend.cpp:65-157 | no well-formed character is a prefix of another |
| `Utf.Tosqlwide` | contrib/cppdb/drivers/odbc_backend.cpp:324-339 | succeeds exactly on the strings in the grammar of section 4 of RFC 3629 and gives their UTF-16 form |
| `Utf.NarrowerWide` | contrib/cppdb/drivers/odbc_backend.cpp:283-300 | succeeds exactly on sequences without unpaired surrogates and gives their UTF-8 form |
| `Utf.Widen` | contrib/cppdb/drivers/odbc_backend.cpp:262-276 | as Tosqlwide, with the units as pairs of bytes |
| `Utf.NarrowerBytes` | contrib/cppdb/drivers/odbc_backend.cpp:302-322 | as NarrowerWide on pairs of bytes; an odd number of bytes is an error |
| `Utf.NarrowOfWide` | contrib/cppdb/drivers/odbc_backend.cpp:262-322 | widening and narrowing give every well-formed UTF-8 string back |
| `Utf.WideOfNarrow` | contrib/cppdb/drivers/odbc_backend.cpp:262-322 | narrowing and widening give every well-formed UTF-16 sequence back |
| `Utf.WidenThenNarrow` | contrib/cppdb/drivers/odbc_backend.cpp:262-322 | the same through the byte strings that the driver uses |
| `Utf.WideIffGrammar` | contrib/cppdb/drivers/odbc_backend.cpp:262-276 | widening is possible exactly for strings in the grammar |
| `Utf.NarrowIffPaired` | contrib/cppdb/drivers/odbc_backend.cpp:283-300 | narrowing is possible exactly if every surrogate is paired |
| `LruCache.Policy.Hit` | src/app/p2s_mds_cache/cache_policy.h:49-61 | the key moves to the recent end of the queue, or is added there; index and queue agree |
| `LruCache.Policy.Pop` | src/app/p2s_mds_cache/cache_policy.h:65-73 | the least recent key leaves both the queue and the index; nothing if empty |
| `LruCache.Policy.Erase` | src/app/p2s_mds_cache/cache_policy.h:75-82 | the key leaves the queue and the index, wherever it is |
| `LruCache.Policy.Clear` | src/app/p2s_mds_cache/cache_policy.h:85-89 | no keys are left |
| `LruCache.Cache.constructor` | src/app/p2s_mds_cache/cache.h:26-31 | an empty cache |
| `LruCache.Cache.Write` | src/app/p2s_mds_cache/cache.h:84-111 | the contents become those of the recency list: the entry at the recent end, the least recent one gone if the cache was full; the callback is called once exactly if that one asked for it; fails only for size 0 |
| `LruCache.Cache.Read` | src/app/p2s_mds_cache/cache.h:113-126 | finds something exactly if the key is cached, gives the value that is cached for it and makes the key the most recent one |
| `LruCache.Cache.Contains` | src/app/p2s_mds_cache/cache.h:128-134 | whether the key is cached |
| `LruCache.Cache.Free` | src/app/p2s_mds_cache/cache.h:136-142 | removes the key, the order of the others unchanged |
| `LruCache.Cache.Clear` | src/app/p2s_mds_cache/cache.h:46-52 | removes everything |
| `LruCache.RunIsExplained` | src/app/p2s_mds_cache/cache.h:84-142 | after every run exactly those keys are cached that were written after their last removal and, since their last use, were followed by uses of fewer other keys than the cache may hold; each has the entry last written for it, and they stand in the order of their last use; all of it said of the operations alone |
| `LruCache.ReadIs` | src/app/p2s_mds_cache/cache.h:113-126 | a read after any run gives the value last written for its key if by the operations that key is cached, and nothing otherwise |
| `LruCache.VictimIff` | src/app/p2s_mds_cache/cache.h:94-105 | a write after any run evicts a key exactly if its own key is not cached, the cache is full and that key is the least recently used of all that is cached |
| `LruCache.EvictionPops` | src/app/p2s_mds_cache/cache.h:94-105 | an eviction is reported once, with the value last written, exactly if that entry asked for it |
| `LruCache.OnlyEvictionPops` | src/app/p2s_mds_cache/cache.h:84-142 | an operation that evicts nothing reports nothing |
| `LruCache.Execute` | src/app/p2s_mds_cache/cache.h:84-142 | a cache on which any run is performed holds exactly what the operations say; each of its reads returned the value last written or nothing, as they say, and its pop callbacks were given exactly the evicted entries that asked for it, in order |
| `StatementsCache.Data.Insert` | contrib/cppdb/src/backend.cpp:84-107 | the statement becomes the first of the list; one of the same query, or else the last one of a full cache, is dropped |
| `StatementsCache.Data.Replace` | contrib/cppdb/src/backend.cpp:87-92 | the branch for a query that is cached |
| `StatementsCache.Data.Evict` | contrib/cppdb/src/backend.cpp:94-98 | the statement that was returned longest ago is dropped |
| `StatementsCache.Data.Fetch` | contrib/cppdb/src/backend.cpp:109-120 | the statement of the query leaves the cache; the order of the others is unchanged |
| `StatementsCache.Data.Clear` | contrib/cppdb/src/backend.cpp:122-127 | no statements are left |
| `StatementsCache.Connection.constructor` | contrib/cppdb/src/backend.cpp:215-224 | a cache exactly if its size is positive |
| `StatementsCache.Connection.GetPrepared` | contrib/cppdb/src/backend.cpp:195-207 | if a statement of the query is cached it is given and nothing is prepared, and otherwise a new one is; it then belongs to the caller alone and, with a cache, will go back there |
| `StatementsCache.Connection.Prepare` | contrib/cppdb/src/backend.cpp:209-213 | a new statement that does not go back to the cache |
| `StatementsCache.Connection.Dispose` | contrib/cppdb/src/backend.cpp:47-57 | a statement from the cache goes back, any other one is deleted, what is pushed out is deleted; nothing is deleted twice |
| `StatementsCache.Connection.Put` | contrib/cppdb/src/backend.cpp:140-148 | returns a statement to the cache |
| `StatementsCache.Connection.Drop` | contrib/cppdb/src/backend.cpp:47-57 | what the loss of the last reference of a caller does: back to the front of the cache, with what that pushes out deleted, or deleted itself; every statement stays in one place |
| `StatementsCache.Connection.ClearStatements` | contrib/cppdb/src/backend.cpp:303-306 | all cached statements are deleted |
| `StatementsCache.GetOwned` | contrib/cppdb/src/backend.cpp:195-207 | a request gives a statement of its query that is neither held by another caller nor deleted nor still cached |
| `StatementsCache.GetShows` | contrib/cppdb/src/backend.cpp:195-207 | the same of the list model: the cached statement leaves the cache, and no other does |
| `StatementsCache.ReleaseOwned` | contrib/cppdb/src/backend.cpp:47-57 | a release keeps every statement in exactly one place |
| `StatementsCache.ReleaseShows` | contrib/cppdb/src/backend.cpp:47-57 | a statement that is to go back becomes the first of the cache, for which the one of the same query, or else the last one of a full cache, is deleted; any other one is itself deleted |
| `StatementsCache.RunKeeps` | contrib/cppdb/src/backend.cpp:47-148 | after every run each statement ever prepared is held by one caller, cached once or deleted once, their numbers add up, the cache is within its size and ordered by last release |
| `StatementsCache.Execute` | contrib/cppdb/src/backend.cpp:47-148 | a connection on which any run is performed ends as the list model says |
| `DiskCache.Cache.constructor` | src/lib/asfio/disk_cache_impl.cpp:286-301 | the number of slots from the file length, at most what the header describes |
| `DiskCache.ModifiedLengthIs` | src/lib/asfio/disk_cache_impl.cpp:286-301 | the length used is that of as many whole slots as fit, at most as many as the header describes |
| `DiskCache.Cache.CreateFile` | src/lib/asfio/disk_cache_impl.cpp:453-498 | a new file in which every slot is free, exactly if there is a slot, space for the file and no error of a file operation; the cache stays closed otherwise |
| `DiskCache.Cache.WritePiece` | src/lib/asfio/disk_cache_impl.cpp:591-801 | for any outcomes of the space check and the file operations: the write answers that it failed exactly if an operation that it performed failed, and if none does, in range and within the table, the piece is stored; a write that succeeds loses nothing but what was in the one slot that it may have taken back, which happens only if no free slot lies within the file; for a new channel it goes past the chunk table exactly if the chunk is not below the number of chunks; refused writes change nothing |
| `DiskCache.Cache.Write` | src/lib/asfio/disk_cache_impl.cpp:591-801 | the answer for any outcomes of the space check and the file operations; the recursive retry ends: at most one chunk is erased for a write, after which there is room; which one; the last used channel; the file grows by at most one chunk; and a write past the chunk table happens exactly if the channel is new and has no such chunk |
| `DiskCache.FailedIff` | src/lib/asfio/disk_cache_impl.cpp:591-801 | a write answers that it failed exactly if reading or clearing the slot to be taken back, growing the file or writing the piece was performed and failed; with none failing it answers that it wrote |
| `DiskCache.PastTableExample` | src/lib/asfio/disk_cache_impl.cpp:734-743 | piece 16 of a new channel of 16 pieces in chunks of four: the chunk table has four entries and the code indexes the fifth |
| `DiskCache.Cache.TryPlace` | src/lib/asfio/disk_cache_impl.cpp:650-753 | one attempt: the known slot, the first free slot, or a slot taken back |
| `DiskCache.Cache.Extend` | src/lib/asfio/disk_cache_impl.cpp:675-730 | the first free slot lies beyond the file: one chunk more always reaches it, otherwise a slot is taken back |
| `DiskCache.Cache.GiveSlot` | src/lib/asfio/disk_cache_impl.cpp:732-751 | the first free slot goes to the chunk, and the invariant holds |
| `DiskCache.Cache.Record` | src/lib/asfio/disk_cache_impl.cpp:762-801 | a piece is counted once; a write that fails closes the cache and is answered so, any other is not |
| `DiskCache.Cache.EraseChunk` | src/lib/asfio/disk_cache_impl.cpp:1027-1094 | takes back the slot given or one that it chooses, which is always a used one |
| `DiskCache.Cache.EraseSlot` | src/lib/asfio/disk_cache_impl.cpp:1046-1093 | what erasing does to the header, the channel, the chunk, the holes and the count |
| `DiskCache.Cache.Close` | src/lib/asfio/disk_cache_impl.cpp:505-514 | a closed cache holds nothing |
| `DiskCache.Cache.FindPiece` | src/lib/asfio/disk_cache_impl.cpp:1178-1206 | gives the place of a piece exactly if it is stored |
| `DiskCache.EraseKeepsIff` | src/lib/asfio/disk_cache_impl.cpp:1058-1093 | erasing a used slot keeps the invariant exactly if the number of the slot is less than the number of chunks of its channel |
| `DiskCache.EraseBreaks` | src/lib/asfio/disk_cache_impl.cpp:1062-1083 | an erased slot that its channel still claims: two channels of one chunk in a file of two slots |
| `DiskCache.EraseRemoves` | src/lib/asfio/disk_cache_impl.cpp:1058-1087 | erasing a slot removes its chunk and moves no other |
| `DiskCache.GiveKeeps` | src/lib/asfio/disk_cache_impl.cpp:732-751 | giving a free slot to a chunk keeps the invariant: holes are the empty slots, used and holes add up, every used slot has one channel, the two chunk maps are inverse |
| `DiskCache.OneOwner` | src/lib/asfio/disk_cache_impl.cpp:732-751 | a slot holds exactly the chunk that exactly one channel has there |
| `DiskCache.WriteStores` | src/lib/asfio/disk_cache_impl.cpp:591-801 | what is stored after a write, piece by piece |
| `DiskCache.StoredApart` | src/lib/asfio/disk_cache_impl.cpp:778-793 | two different stored pieces never share a byte of the file |
| `DiskCache.StoredInFile` | src/lib/asfio/disk_cache_impl.cpp:1187-1203 | a stored piece lies behind the header and within the file |
| `DiskCache.OrigChunkIs` | src/lib/asfio/disk_cache_impl.cpp:741-743 | the chunk of a piece |
| `DiskCache.ChunkCountIs` | src/lib/asfio/disk_cache_impl.cpp:734-743 | the number of chunks of a channel is the least that holds all its pieces |
| `DiskCache.FindErasable` | src/lib/asfio/disk_cache_impl.cpp:1104-1128 | a slot of a channel with the fewest chunks, the last used one left out; otherwise any of the first slots |
| `DiskCache.FindErasableFor` | src/lib/asfio/disk_cache_impl.cpp:1130-1176 | the same for a write: its own channel left out, and of that the chunk farthest from the one to write |
| `DiskCache.Least` | src/lib/asfio/disk_cache_impl.cpp:1106-1120 | a channel with the fewest cached chunks among all but one |
| `DiskCache.Farthest` | src/lib/asfio/disk_cache_impl.cpp:1163-1169 | the cached chunk farthest from a given one |
| `P2pProcessor.Processor.Halt` | src/app/p2s_ppc/p2p_processor.cpp:26-73 | afterwards nobody is served or waits and nothing is kept; whoever did is closed and was sent nothing more; the invariant is kept |
| `P2pProcessor.Processor.Process` | src/app/p2s_ppc/p2p_processor.cpp:191-217 | the session is of the channel asked for and not disconnected; if it was so before, those who were served still are; if not, it starts anew and all connections of the other channel are closed and sent nothing; the request itself then waits or is answered as a registration is; the invariant is kept |
| `P2pProcessor.Processor.ProcessStop` | src/app/p2s_ppc/p2p_processor.cpp:223-232 | for the channel that runs, all has stopped and only the one who gave the command is sent a reply, 200; for another channel nothing changes; the invariant is kept |
| `P2pProcessor.Processor.ProcessSwitch` | src/app/p2s_ppc/p2p_processor.cpp:233-245 | earlier switches are told 408 and nobody else is sent anything; whoever gave the command waits for the first packet exactly if no other channel was running, and is closed unanswered otherwise; the invariant is kept |
| `P2pProcessor.SwitchLost` | src/app/p2s_ppc/p2p_processor.cpp:233-245 | a player of one channel that asks to switch to another: its connection is closed without an answer |
| `P2pProcessor.Processor.ProcessRange` | src/app/p2s_ppc/p2p_processor.cpp:246-254 | for the channel that runs, the header alone as for a registration; otherwise 404; no other connection is sent anything or changes place; the invariant is kept |
| `P2pProcessor.Processor.Register` | src/app/p2s_ppc/p2p_processor.cpp:261-295 | while connecting the connection waits, with the kind of its first request, and nothing is sent; once connected an open connection is served and what it is sent is a header that says whether the content is partial and a new stream that holds exactly the window, or the header alone; otherwise 400; no other connection is sent anything or changes place; the invariant is kept |
| `P2pProcessor.Processor.ResponseStream` | src/app/p2s_ppc/p2p_processor.cpp:297-343 | an open connection gets the header and the window and is served from then on |
| `P2pProcessor.Processor.OnDisconnected` | src/app/p2s_ppc/p2p_processor.cpp:376-386 | the connection is neither served nor waited for; nothing is sent and no other connection changes place; the invariant is kept |
| `P2pProcessor.Processor.OnLoginFailed` | src/app/p2s_ppc/p2p_processor.cpp:391-413 | waiting and served connections are sent one reply, 401 if not authorized and 503 otherwise, and nobody else is sent anything; all has stopped, and those who asked for the header alone or for a switch are closed; the invariant is kept |
| `P2pProcessor.Processor.OnLoginSuccess` | src/app/p2s_ppc/p2p_processor.cpp:416-440 | served are those who were and those who waited and are open; of these each is sent a header that says whether the content is partial and a new stream that is exactly the window; each open connection that asked for the header alone is sent that; no other log changes, nobody waits any more and nothing else of the session changes; the invariant is kept |
| `P2pProcessor.LoginShows` | src/app/p2s_ppc/p2p_processor.cpp:416-440 | the same of the event model, for every session |
| `P2pProcessor.Processor.OnRecvdMedia` | src/app/p2s_ppc/p2p_processor.cpp:505-583 | connected: the packet is sent to those who are served and open, who alone stay served, and switches are answered 200; with nobody served the session stops once six seconds have passed since the first such packet; connecting: all stops; disconnected: nothing changes; the invariant is kept |
| `P2pProcessor.Processor.Trim` | src/app/p2s_ppc/p2p_processor.cpp:526-528 | the loop that drops old packets stops before the window is empty |
| `P2pProcessor.Processor.OnMediaEnd` | src/app/p2s_ppc/p2p_processor.cpp:585-594 | exactly those who are served are closed and served no more; nothing is sent and nothing else changes; the invariant is kept |
| `P2pProcessor.WindowIs` | src/app/p2s_ppc/p2p_processor.cpp:522-529 | for packets in the order of their times the trimming loop keeps exactly those not older than six seconds |
| `P2pProcessor.WindowOfRun` | src/app/p2s_ppc/p2p_processor.cpp:522-529 | after every run in which the clock does not go back, the window of a live session that is connected is exactly the packets accepted since it connected that were not older than six seconds when the latest came |
| `P2pProcessor.RunKeeps` | src/app/p2s_ppc/p2p_processor.cpp:26-594 | after every run waiting and head requests exist only while connecting and streams only while connected; every stream ever sent on any connection is a run of the received packets without gap or repetition; whoever is served has everything up to the latest packet |
| `P2pProcessor.BeginsWithWindow` | src/app/p2s_ppc/p2p_processor.cpp:339-342 | a new stream begins with the window |
| `P2pProcessor.ServedWithoutGap` | src/app/p2s_ppc/p2p_processor.cpp:297-343 | as long as it is served, a connection is sent every packet from the beginning of its stream on |
| `P2pProcessor.Execute` | src/app/p2s_ppc/p2p_processor.cpp:26-594 | a session in which any events happen ends as the event model says, with the invariant |
| `SqlText.Scan` | contrib/cppdb/drivers/mysql_backend.cpp:429-449 | the positions of the question marks outside of quotes, in order, and whether a string is left open |
| `SqlText.InsideIff` | contrib/cppdb/drivers/mysql_backend.cpp:429-449 | a position is inside quotes exactly if an odd number of quotes comes before it |
| `SqlText.NewStatement` | contrib/cppdb/drivers/mysql_backend.cpp:429-449 | fails exactly if a string is left open |
| `SqlText.UnpreparedStatement.Bind` | contrib/cppdb/drivers/mysql_backend.cpp:416-422 | sets a parameter, fails exactly if there is no such placeholder |
| `SqlText.UnpreparedStatement.BindAll` | contrib/cppdb/drivers/mysql_backend.cpp:372-388 | the text with the parameters substituted from left to right |
| `SqlText.BoundAt` | contrib/cppdb/drivers/mysql_backend.cpp:372-388 | where everything goes: the placeholder of each number has become the parameter of that number and every other character is there, behind all that came before it |
| `SqlText.UnpreparedStatement.Send` | contrib/cppdb/drivers/mysql_backend.cpp:390-399 | sends that text and sets the parameters to NULL |
| `SqlText.UnpreparedStatement.ResetParams` | contrib/cppdb/drivers/mysql_backend.cpp:423-427 | all parameters are NULL |
| `SqlText.Untouched` | contrib/cppdb/drivers/mysql_backend.cpp:372-388 | text without placeholders, and so all text inside quotes, is left as it is |
| `SqlText.SubstituteLength` | contrib/cppdb/drivers/mysql_backend.cpp:372-388 | the length of the text: the query without its placeholders, and the parameters |
| `SqlText.UnpreparedStatement.Reserve` | contrib/cppdb/drivers/mysql_backend.cpp:374-379 | the space that is reserved, query and parameters together, is one more per placeholder than the text takes |
| `SqlText.SubstituteSame` | contrib/cppdb/drivers/mysql_backend.cpp:372-388 | question marks substituted for the placeholders give the text back |
| `SqlText.Rewrite` | contrib/cppdb/drivers/postgres_backend.cpp:284-302 | the same placeholders as for MySQL become $1, $2, ... in order |
| `SqlText.DecimalValue` | contrib/cppdb/drivers/postgres_backend.cpp:291-294 | the number that is printed is the number of the placeholder, in digits without leading zeros |
| `Quoting.Trim` | contrib/cppdb/src/utils.cpp:67-79 | the text that neither begins nor ends with a blank and, with blanks around it, is the given one |
| `Quoting.TrimmedIff` | contrib/cppdb/src/utils.cpp:67-79 | there is exactly one such text |
| `ConnectionString.Parse` | contrib/cppdb/src/utils.cpp:82-153 | the result that the text stands for, for every text: it is a driver, properties with quoted or plain values and blanks around them, and each kind of error is one way in which what follows is not that; the code does not stop exactly if no number of turns of its last loop is enough, which is exactly if a stray character follows a quoted value |
| `ConnectionString.ConnectionIff` | contrib/cppdb/src/utils.cpp:82-153 | a result is given exactly if the text can be laid out as a driver, properties and an end that stand for it: all properties, a rest without =, a quote that is never closed, a key that comes again, or a stray character |
| `ConnectionString.ReadQuoted` | contrib/cppdb/src/utils.cpp:107-126 | a quoted value with doubled quotes read as one, up to the closing quote |
| `ConnectionString.ReadValue` | contrib/cppdb/src/utils.cpp:98-138 | the value and its end are exactly those written there: after blanks, a quoted value up to its closing quote, or a plain one up to the semicolon or the end without the blanks around it; an error exactly for a quote that is never closed |
| `ConnectionString.ValueIff` | contrib/cppdb/src/utils.cpp:98-138 | the same as an equivalence, for every text, value and position |
| `ConnectionString.SkipEnd` | contrib/cppdb/src/utils.cpp:143-151 | gives the position at which some number of turns leaves the loop after a property, and none exactly if no number of turns does |
| `Quoting.Escape` | contrib/cppdb/drivers/sqlite3_backend.cpp:461-473 | the value with its quotes doubled |
| `Quoting.UnquotedEscaped` | contrib/cppdb/src/utils.cpp:107-126 | an escaped value in quotes is read back as it was |
| `Quoting.EscapedFound` | contrib/cppdb/src/utils.cpp:107-126 | whatever is read as a quoted value is the escaped form of that value and a closing quote |
| `Quoting.EscapedInjective` | contrib/cppdb/drivers/sqlite3_backend.cpp:461-473 | no two values have the same escaped text |
| `ConnectionString.RoundTrip` | contrib/cppdb/src/utils.cpp:82-153 | a driver and properties with distinct keys, quoted and plain ones in any order, with any blanks around keys and values and with or without a last semicolon, are parsed to exactly that driver and those properties |
| `ConnectionString.PlainRoundTrip` | contrib/cppdb/src/utils.cpp:128-138 | driver:k=v is parsed to that driver and k := v for every trimmed v without a semicolon that does not begin with a quote |
| `ConnectionString.UpdatedIs` | contrib/cppdb/src/utils.cpp:139-142 | the parsed map holds each key with its value and nothing else |
| `ConnectionString.LeavesIff` | contrib/cppdb/src/utils.cpp:143-151 | some number of turns leaves the loop at a position exactly if that is behind the first character that is not blank and this is a semicolon, or the end of the text |
| `ConnectionString.SpinsIff` | contrib/cppdb/src/utils.cpp:143-151 | no number of turns leaves the loop exactly if the first character that is not blank is another one |
| `ConnectionString.StopsIff` | contrib/cppdb/src/utils.cpp:82-153 | the whole parser gives a result exactly if it does with some number of turns of each loop |
| `ConnectionString.NeverStopsIff` | contrib/cppdb/src/utils.cpp:82-153 | the whole parser does not stop exactly if no number of turns is enough |
| `ConnectionString.NeverStopsIffStray` | contrib/cppdb/src/utils.cpp:82-153 | no number of turns is enough exactly for the texts in which one pass finds a character other than a blank or a semicolon after a quoted value of a new key |
| `ConnectionString.StopsAfterPlainValue` | contrib/cppdb/src/utils.cpp:128-151 | after a value without quotes some number of turns leaves the loop |
| `ConnectionString.StuckAfterQuote` | contrib/cppdb/src/utils.cpp:143-151 | at any other character right after a quoted first value the loop is still there after any number of turns, and so is the parser |

## Left out

- Streaming.State.Append: lengths whose sum with the offset in the buffer leaves the range of int, for which the code has no defined result.
- Utf.Widen: the byte strings are those of a little-endian host; the code copies units in host order.
- DiskCache.Cache.Write: channels of more than 65535 chunks, whose numbers do not fit the 16-bit tables; and channels of fewer chunks than slots, for which the invariant is not kept.
- DiskCache.Cache.WritePiece: the same restriction on channels as for the write it wraps; and what the code does after it has indexed the chunk table past its end, where the model stops.
- DiskCache.Cache.Record: the check values that guard counters in memory against corruption.
- P2pProcessor.SendEach: the loop over the waiting connections is a recursion over their set.
- P2pProcessor.Processor.Process: the parsing of the request, multicast trackers and the fields of HTTP headers other than whether the content is partial.
- ConnectionString.RoundTrip: keys with blanks at their ends or with the character =, which the format cannot carry, and plain values that would have to be quoted.
- Disk cache: loading an existing file, reopening after an error, erasing a whole channel, the lock that is released during file operations, the map of chunks sent to peers.
- Curve25519: the group law of the curve; what is proved is equality with the formulas of RFC 7748.
- MD5: the choice of word access by byte order and alignment at compile time.
- Statement cache: a put into a connection without cache, which the code reaches never, and clearing one, which it must not; the pool of connections.
- Media server cache: resizing and the mutex.
- The registries of media servers and shunts, packet buffers, forward error correction and RSA: mostly calls into code outside of the repository, or not given in source.
- The database drivers beyond the text that they build and convert: every other operation is a call into the library of the database.
- Device discovery, NAT traversal, downloads over HTTP, the parsing of XML and the extraction of media addresses from web pages: exchanges with other hosts in formats that those hosts set and the system does not promise.
