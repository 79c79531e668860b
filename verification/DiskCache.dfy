/** The chunk allocator of the disk cache: which slot of the cache file holds which chunk of which
    channel, how slots are handed out and how they are taken back. */
module DiskCache {
  import opened Options
  import opened KeyedList
  import Bits
  import Modular

  /** A channel_uuid. */
  type Id = string

  const INVALID_CHUNK_ID := 0xffff
  const PARAM_LINE_LEN := 128
  const CHUNK_INFO_LINE_LEN := 24 + 8 + 656
  const HEADER_LEN := PARAM_LINE_LEN + 4 * 1024 * 1024 / CHUNK_INFO_LINE_LEN * CHUNK_INFO_LINE_LEN
  const MAX_SLOTS := (HEADER_LEN - PARAM_LINE_LEN) / CHUNK_INFO_LINE_LEN

  /** What the cache knows of a channel: where each of its chunks is, what each slot holds of it,
      and which of its chunks are cached. */
  datatype Channel = Channel(pieces: int, toCache: seq<int>, toOrig: seq<int>, cached: set<int>)

  /** A cached chunk: its number in the channel and the pieces that have arrived. */
  datatype Chunk = Chunk(orig: int, count: int, bits: set<int>)

  /** The slots: the channel named in the file header, the channels, the chunks, the free slots
      and the number of used ones. */
  datatype Disk = Disk(owners: seq<Option<Id>>, channels: map<Id, Channel>, chunks: seq<Option<Chunk>>,
                       holes: set<int>, used: int)

  // ------------------------------------------------------------------------- the invariant

  /** The two chunk maps of a channel are inverse to each other and `cached` is their domain. */
  ghost predicate ChannelOk(c: Channel, slots: nat) {
    && |c.toOrig| == slots && |c.toCache| <= INVALID_CHUNK_ID && c.cached != {}
    && (forall o :: o in c.cached ==> 0 <= o < |c.toCache| && 0 <= c.toCache[o] < slots && c.toOrig[c.toCache[o]] == o)
    && (forall o :: 0 <= o < |c.toCache| && o !in c.cached ==> c.toCache[o] == INVALID_CHUNK_ID)
    && (forall s :: 0 <= s < slots && c.toOrig[s] != INVALID_CHUNK_ID ==> c.toOrig[s] in c.cached && c.toCache[c.toOrig[s]] == s)
  }

  /** A slot is free, or holds the chunk that its owner has there. */
  ghost predicate SlotOk(d: Disk, s: nat)
    requires s < |d.owners| == |d.chunks|
  {
    match d.chunks[s]
    case None => d.owners[s] == None && s in d.holes
    case Some(k) =>
      && s !in d.holes
      && d.owners[s].Some? && d.owners[s].value in d.channels
      && s < |d.channels[d.owners[s].value].toOrig|
      && d.channels[d.owners[s].value].toOrig[s] == k.orig
      && k.orig in d.channels[d.owners[s].value].cached
      && k.count == |k.bits|
  }

  ghost predicate Sized(d: Disk, slots: nat) {
    |d.owners| == |d.chunks| == slots <= MAX_SLOTS
  }

  ghost predicate Inv(d: Disk, slots: nat) {
    && Sized(d, slots)
    && (forall h :: h in d.holes ==> 0 <= h < slots)
    && d.used + |d.holes| == slots
    && (forall id :: id in d.channels ==> ChannelOk(d.channels[id], slots))
    && (forall s :: 0 <= s < slots ==> SlotOk(d, s))
    && (forall id, o :: id in d.channels && o in d.channels[id].cached ==>
          d.owners[d.channels[id].toCache[o]] == Some(id))
  }

  /** The slot in which a chunk is cached. */
  ghost function Slot(d: Disk, id: Id, o: int): Option<int> {
    if id in d.channels && o in d.channels[id].cached && 0 <= o < |d.channels[id].toCache|
    then Some(d.channels[id].toCache[o]) else None
  }

  /** A used slot has exactly one owner and one place in it. */
  lemma OneOwner(d: Disk, slots: nat, s: nat, id: Id, o: int)
    requires Inv(d, slots) && s < slots
    ensures Slot(d, id, o) == Some(s) <==> d.chunks[s].Some? && d.owners[s] == Some(id) && d.chunks[s].value.orig == o
  {
    assert SlotOk(d, s);
    if Slot(d, id, o) == Some(s) {
      assert o in d.channels[id].cached;
    }
  }

  // ----------------------------------------------------------------------- erasing a chunk

  /** What erasing does to the channel that owns the slot. */
  function ChannelErased(c: Channel, s: nat): Channel
    requires s < |c.toOrig| && 0 <= c.toOrig[s] < |c.toCache|
  {
    var o := c.toOrig[s];
    Channel(c.pieces, c.toCache[o := INVALID_CHUNK_ID], c.toOrig[s := INVALID_CHUNK_ID], c.cached - {o})
  }

  /** What erasing does to the channels: nothing if the number of the slot is not less than the
      number of chunks of the owner. */
  function ChannelsErased(d: Disk, s: nat): map<Id, Channel>
    requires s < |d.owners|
  {
    if d.owners[s].None? || d.owners[s].value !in d.channels then d.channels
    else
      var id := d.owners[s].value;
      var c := d.channels[id];
      if s < |c.toCache| && s < |c.toOrig| && 0 <= c.toOrig[s] < |c.toCache| then
        var c' := ChannelErased(c, s);
        if c'.cached == {} then d.channels - {id} else d.channels[id := c']
      else d.channels
  }

  function Erased(d: Disk, s: nat): Disk
    requires s < |d.owners| == |d.chunks|
  {
    Disk(d.owners[s := None], ChannelsErased(d, s), d.chunks[s := None], d.holes + {s}, d.used - 1)
  }

  lemma ChannelErasedOk(c: Channel, slots: nat, s: nat)
    requires ChannelOk(c, slots) && s < slots && c.toOrig[s] in c.cached
    ensures var c' := ChannelErased(c, s); c'.cached != {} ==> ChannelOk(c', slots)
  {
    var o := c.toOrig[s];
    assert c.toCache[o] == s;
  }

  /** The number of chunks of the channel that owns a slot. */
  ghost function OwnerChunks(d: Disk, s: nat): nat
    requires s < |d.owners|
  {
    if d.owners[s].Some? && d.owners[s].value in d.channels then |d.channels[d.owners[s].value].toCache| else 0
  }

  /** Erasing a used slot keeps the invariant exactly when the number of the slot is less than the
      number of chunks of the channel that owns it. */
  lemma EraseKeepsIff(d: Disk, slots: nat, s: nat)
    requires Inv(d, slots) && s < slots && d.chunks[s].Some?
    ensures Inv(Erased(d, s), slots) <==> s < OwnerChunks(d, s)
  {
    assert SlotOk(d, s);
    var id, d' := d.owners[s].value, Erased(d, s);
    var c := d.channels[id];
    var o := c.toOrig[s];
    if s < |c.toCache| {
      EraseKeeps(d, slots, s);
    } else {
      assert d'.channels == d.channels;
      assert o in d'.channels[id].cached && d'.owners[s] != Some(id);
      assert d'.channels[id].toCache[o] == s;
    }
  }

  lemma EraseSlots(d: Disk, slots: nat, s: nat, t: nat)
    requires Inv(d, slots) && s < slots && d.chunks[s].Some? && s < OwnerChunks(d, s) && t < slots
    ensures SlotOk(Erased(d, s), t)
  {
    assert SlotOk(d, s);
    assert SlotOk(d, t);
    var id := d.owners[s].value;
    OneOwner(d, slots, t, id, d.channels[id].toOrig[t]);
  }

  lemma EraseKeeps(d: Disk, slots: nat, s: nat)
    requires Inv(d, slots) && s < slots && d.chunks[s].Some?
    requires s < OwnerChunks(d, s)
    ensures Inv(Erased(d, s), slots)
  {
    var d' := Erased(d, s);
    assert SlotOk(d, s);
    ChannelErasedOk(d.channels[d.owners[s].value], slots, s);
    forall t | 0 <= t < slots ensures SlotOk(d', t) {
      EraseSlots(d, slots, s, t);
    }
    forall i, p | i in d'.channels && p in d'.channels[i].cached
      ensures d'.owners[d'.channels[i].toCache[p]] == Some(i)
    {
      EraseClaims(d, slots, s, i, p);
    }
  }

  lemma EraseClaims(d: Disk, slots: nat, s: nat, i: Id, p: int)
    requires Inv(d, slots) && s < slots && d.chunks[s].Some? && s < OwnerChunks(d, s)
    requires i in Erased(d, s).channels && p in Erased(d, s).channels[i].cached
    ensures var d' := Erased(d, s);
            var c := d'.channels[i];
            0 <= p < |c.toCache| && 0 <= c.toCache[p] < slots && d'.owners[c.toCache[p]] == Some(i)
  {
    assert SlotOk(d, s);
    assert p in d.channels[i].cached;
  }

  /** Erasing a slot removes the chunk in it and moves no other. */
  lemma EraseRemoves(d: Disk, slots: nat, s: nat, i: Id, p: int)
    requires Inv(d, slots) && s < slots && d.chunks[s].Some? && s < OwnerChunks(d, s)
    ensures Slot(Erased(d, s), i, p) == if Slot(d, i, p) == Some(s) then None else Slot(d, i, p)
  {
    assert SlotOk(d, s);
    OneOwner(d, slots, s, i, p);
    if i in d.channels && p in d.channels[i].cached {
      assert d.owners[d.channels[i].toCache[p]] == Some(i);
    }
  }

  // ------------------------------------------------------------------------ giving out a slot

  /** How many chunks a number of pieces makes. */
  function ChunkCount(pieces: int, perChunk: nat): (count: int)
    requires perChunk > 0
    ensures pieces >= 0 ==> count >= 0
  {
    (pieces + perChunk - 1) / perChunk
  }

  function NewChannel(pieces: nat, slots: nat, perChunk: nat): Channel
    requires perChunk > 0
  {
    Channel(pieces, seq(ChunkCount(pieces, perChunk), _ => INVALID_CHUNK_ID), seq(slots, _ => INVALID_CHUNK_ID), {})
  }

  function ChannelGiven(c: Channel, o: nat, s: nat): Channel
    requires o < |c.toCache| && s < |c.toOrig|
  {
    Channel(c.pieces, c.toCache[o := s], c.toOrig[s := o], c.cached + {o})
  }

  function Given(d: Disk, id: Id, c: Channel, o: nat, s: nat): Disk
    requires s < |d.owners| == |d.chunks| == |c.toOrig| && o < |c.toCache|
  {
    Disk(d.owners[s := Some(id)], d.channels[id := ChannelGiven(c, o, s)], d.chunks[s := Some(Chunk(o, 0, {}))],
         d.holes - {s}, d.used + 1)
  }

  /** The channel of a write: the known one, or a new one without chunks. */
  ghost predicate IsChannel(d: Disk, slots: nat, id: Id, c: Channel) {
    if id in d.channels then c == d.channels[id]
    else
      && |c.toOrig| == slots && |c.toCache| <= INVALID_CHUNK_ID && c.cached == {}
      && (forall o :: 0 <= o < |c.toCache| ==> c.toCache[o] == INVALID_CHUNK_ID)
      && (forall s :: 0 <= s < slots ==> c.toOrig[s] == INVALID_CHUNK_ID)
  }

  lemma ChannelGivenOk(d: Disk, slots: nat, id: Id, c: Channel, o: nat, s: nat)
    requires Inv(d, slots) && IsChannel(d, slots, id, c) && o < |c.toCache| && o !in c.cached && s in d.holes
    ensures ChannelOk(ChannelGiven(c, o, s), slots)
  {
    assert SlotOk(d, s);
    assert c.toOrig[s] == INVALID_CHUNK_ID by {
      if id in d.channels {
        OneOwner(d, slots, s, id, c.toOrig[s]);
      }
    }
  }

  /** Giving a free slot to a chunk that is not cached keeps the invariant. */
  lemma GiveKeeps(d: Disk, slots: nat, id: Id, c: Channel, o: nat, s: nat)
    requires Inv(d, slots) && IsChannel(d, slots, id, c) && o < |c.toCache| && o !in c.cached && s in d.holes
    ensures Inv(Given(d, id, c, o, s), slots)
  {
    var d' := Given(d, id, c, o, s);
    ChannelGivenOk(d, slots, id, c, o, s);
    assert SlotOk(d, s);
    forall t | 0 <= t < slots ensures SlotOk(d', t) {
      assert SlotOk(d, t);
    }
    forall i, p | i in d'.channels && p in d'.channels[i].cached
      ensures d'.owners[d'.channels[i].toCache[p]] == Some(i)
    {
      if i in d.channels && p in d.channels[i].cached {
        OneOwner(d, slots, d.channels[i].toCache[p], i, p);
      }
    }
  }

  /** It places that chunk and moves no other. */
  lemma GivePlaces(d: Disk, slots: nat, id: Id, c: Channel, o: nat, s: nat, i: Id, p: int)
    requires Inv(d, slots) && IsChannel(d, slots, id, c) && o < |c.toCache| && o !in c.cached && s in d.holes
    ensures Slot(Given(d, id, c, o, s), i, p) == if i == id && p == o then Some(s) else Slot(d, i, p)
  {
  }

  const FREE := Disk([None, None], map[], [None, None], {0, 1}, 0)

  lemma FreeInv()
    ensures Inv(FREE, 2)
  {
    assert forall s :: 0 <= s < 2 ==> SlotOk(FREE, s);
  }

  /** Two channels of one chunk each in a file of two slots: taking back the second slot leaves its
      channel with a chunk in a free slot. */
  lemma TwoChannels(d: Disk, c: Channel, a: Id, b: Id)
    requires Inv(d, 2) && d.channels == map[] && d.holes == {0, 1} && a != b
    requires |c.toCache| == 1 && IsChannel(d, 2, a, c)
    ensures var e := Given(Given(d, a, c, 0, 0), b, c, 0, 1); Inv(e, 2) && !Inv(Erased(e, 1), 2)
  {
    GiveKeeps(d, 2, a, c, 0, 0);
    var e := Given(d, a, c, 0, 0);
    GiveKeeps(e, 2, b, c, 0, 1);
    EraseKeepsIff(Given(e, b, c, 0, 1), 2, 1);
  }

  lemma EraseBreaks()
    ensures var c := NewChannel(1, 2, 1); var d := Given(Given(FREE, "a", c, 0, 0), "b", c, 0, 1);
            Inv(d, 2) && !Inv(Erased(d, 1), 2)
  {
    FreeInv();
    assert ChunkCount(1, 1) == 1;
    TwoChannels(FREE, NewChannel(1, 2, 1), "a", "b");
  }

  // --------------------------------------------------------------------- recording a piece

  function Recorded(d: Disk, s: nat, b: int): Disk
    requires s < |d.chunks| && d.chunks[s].Some?
  {
    var k := d.chunks[s].value;
    if b in k.bits then d else d.(chunks := d.chunks[s := Some(k.(count := k.count + 1, bits := k.bits + {b}))])
  }

  lemma RecordKeeps(d: Disk, slots: nat, s: nat, b: int)
    requires Inv(d, slots) && s < slots && d.chunks[s].Some?
    ensures Inv(Recorded(d, s, b), slots)
  {
    var d' := Recorded(d, s, b);
    forall t | 0 <= t < slots ensures SlotOk(d', t) {
      assert SlotOk(d, t);
    }
  }

  // ---------------------------------------------------------------- choosing what to erase

  lemma {:induction false} SubsetSize(s: set<int>, n: nat)
    requires forall x :: x in s ==> 0 <= x < n
    ensures |s| <= n
  {
    if n > 0 {
      SubsetSize(s - {n - 1}, n - 1);
    } else {
      assert forall x :: x !in s;
      assert s == {};
    }
  }

  /** A channel with the fewest cached chunks among all but one; a coin decides between equals. */
  method Least(channels: map<Id, Channel>, skip: Option<Id>) returns (best: Option<Id>)
    requires forall id :: id in channels ==> |channels[id].cached| < 0xffffff
    ensures best.None? <==> forall id :: id in channels ==> Some(id) == skip
    ensures best.Some? ==>
      && best.value in channels && best != skip
      && forall id :: id in channels && Some(id) != skip ==> |channels[best.value].cached| <= |channels[id].cached|
  {
    var minChunks, todo := 0xffffff, channels.Keys;
    best := None;
    while todo != {}
      invariant todo <= channels.Keys
      invariant best.None? ==> minChunks == 0xffffff && forall id :: id in channels && id !in todo ==> Some(id) == skip
      invariant best.Some? ==> best.value in channels && best != skip && minChunks == |channels[best.value].cached|
      invariant forall id :: id in channels && id !in todo && Some(id) != skip ==> minChunks <= |channels[id].cached|
      decreases |todo|
    {
      var id :| id in todo;
      todo := todo - {id};
      var coin: bool := *;
      if Some(id) != skip && (minChunks > |channels[id].cached| || (minChunks == |channels[id].cached| && coin)) {
        minChunks, best := |channels[id].cached|, Some(id);
      }
    }
  }

  /** The first element of a set of numbers. */
  method First(s: set<int>, bound: nat) returns (x: int)
    requires s != {} && forall y :: y in s ==> 0 <= y < bound
    ensures x in s && forall y :: y in s ==> x <= y
  {
    x := 0;
    while x !in s
      invariant 0 <= x && forall y :: y in s ==> x <= y
      decreases bound - x
    {
      assert exists y :: y in s && x <= y < bound;
      x := x + 1;
    }
  }

  function Distance(x: int, y: int): nat {
    if x < y then y - x else x - y
  }

  /** The element that is farthest from a given one. */
  method Farthest(s: set<int>, bound: nat, o: int) returns (x: int)
    requires s != {} && forall y :: y in s ==> 0 <= y < bound
    ensures x in s && forall y :: y in s ==> Distance(y, o) <= Distance(x, o)
  {
    x := First(s, bound);
    for i := 0 to bound
      invariant x in s && forall y :: y in s && y < i ==> Distance(y, o) <= Distance(x, o)
    {
      if i in s && Distance(x, o) < Distance(i, o) {
        x := i;
      }
    }
  }

  /** A slot of one of the channels with the fewest chunks. */
  ghost predicate SlotOfLeast(channels: map<Id, Channel>, skip: Option<Id>, s: int) {
    exists id, o :: id in channels && o in channels[id].cached && 0 <= o < |channels[id].toCache|
      && Some(id) != skip && s == channels[id].toCache[o]
      && forall i :: i in channels && Some(i) != skip ==> |channels[id].cached| <= |channels[i].cached|
  }

  /** A slot of a chunk that no other is farther from a given one than. */
  ghost predicate SlotOfFarthest(c: Channel, orig: int, s: int) {
    exists o :: o in c.cached && 0 <= o < |c.toCache| && s == c.toCache[o]
      && forall p :: p in c.cached ==> Distance(p, orig) <= Distance(o, orig)
  }

  /** The slot that is taken back for a chunk: if all slots are used, one of a channel with the fewest
      chunks other than the last used channel; if the disk is full, one of such a channel other than
      that of the chunk, or else that of its chunk farthest away. */
  ghost predicate Chosen(d: Disk, slots: nat, last: Option<Id>, id: Id, orig: int, s: int) {
    if d.used == slots then (SlotOfLeast(d.channels, last, s) || forall i :: i in d.channels ==> Some(i) == last)
    else (SlotOfLeast(d.channels, Some(id), s)
          || ((forall i :: i in d.channels ==> i == id) && id in d.channels && SlotOfFarthest(d.channels[id], orig, s)))
  }

  lemma CachedSizes(d: Disk, slots: nat)
    requires Inv(d, slots)
    ensures forall id :: id in d.channels ==> |d.channels[id].cached| < 0xffffff
  {
    forall id | id in d.channels ensures |d.channels[id].cached| < 0xffffff {
      SubsetSize(d.channels[id].cached, |d.channels[id].toCache|);
    }
  }

  /** `__find_eraseble_chunk()`: a slot of a channel other than the last used one, with the fewest
      chunks; if there is no other channel, any of the first slots. */
  method FindErasable(d: Disk, slots: nat, lastRw: Option<Id>) returns (s: int)
    requires Inv(d, slots) && d.used > 0
    ensures SlotOfLeast(d.channels, lastRw, s) || ((forall id :: id in d.channels ==> Some(id) == lastRw) && 0 <= s < d.used)
  {
    CachedSizes(d, slots);
    var best := Least(d.channels, lastRw);
    if best.Some? {
      var c := d.channels[best.value];
      assert ChannelOk(c, slots);
      var o := First(c.cached, |c.toCache|);
      return c.toCache[o];
    }
    s :| 0 <= s < |d.chunks| - |d.holes|;
  }

  /** `__find_eraseble_chunk(channelID, origChunkID)`: as above with the channel of the write left
      out; if there is no other channel, the slot of its chunk farthest from the one to write. */
  method FindErasableFor(d: Disk, slots: nat, id: Id, orig: int) returns (s: int)
    requires Inv(d, slots)
    ensures SlotOfLeast(d.channels, Some(id), s)
         || ((forall i :: i in d.channels ==> i == id) &&
             if id in d.channels then SlotOfFarthest(d.channels[id], orig, s) else s == -1)
  {
    CachedSizes(d, slots);
    var best := Least(d.channels, Some(id));
    if best.Some? {
      var c := d.channels[best.value];
      assert ChannelOk(c, slots);
      var o := First(c.cached, |c.toCache|);
      return c.toCache[o];
    }
    if id in d.channels {
      var c := d.channels[id];
      assert ChannelOk(c, slots);
      var o := Farthest(c.cached, |c.toCache|, orig);
      return c.toCache[o];
    }
    s := -1;
  }

  // ------------------------------------------------------------------------------ the file

  /** Where a slot begins in the file. */
  function SlotOffset(s: int, chunkLen: int): int {
    HEADER_LEN + s * chunkLen
  }

  lemma SlotOffsetMonotone(s: int, t: int, chunkLen: nat)
    requires s <= t
    ensures SlotOffset(s, chunkLen) <= SlotOffset(t, chunkLen)
    ensures SlotOffset(s + 1, chunkLen) == SlotOffset(s, chunkLen) + chunkLen
  {
  }

  /** The file reaches to the end of every used slot. */
  ghost predicate InFile(d: Disk, fileSize: int, chunkLen: nat) {
    && fileSize >= HEADER_LEN
    && forall s :: 0 <= s < |d.chunks| && d.chunks[s].Some? ==> SlotOffset(s + 1, chunkLen) <= fileSize
  }

  /** Every channel has as many chunks as its pieces make, and no fewer than there are slots. */
  ghost predicate Covers(d: Disk, slots: nat, perChunk: nat)
    requires perChunk > 0
  {
    forall id :: id in d.channels ==>
      |d.channels[id].toCache| == ChunkCount(d.channels[id].pieces, perChunk) && slots <= |d.channels[id].toCache|
  }

  lemma MulMonotone(a: int, b: int, m: nat)
    requires a <= b
    ensures a * m <= b * m
  {
    assert (b - a) * m >= 0;
  }

  /** The number of chunks is the least that holds all pieces. */
  lemma ChunkCountIs(pieces: int, perChunk: nat)
    requires perChunk > 0
    ensures var c := ChunkCount(pieces, perChunk); (c - 1) * perChunk < pieces <= c * perChunk
  {
    var c, r := ChunkCount(pieces, perChunk), (pieces + perChunk - 1) % perChunk;
    assert pieces + perChunk - 1 == c * perChunk + r;
    assert (c - 1) * perChunk == c * perChunk - perChunk;
  }

  lemma ChunkCountHolds(pieces: int, perChunk: nat, n: nat)
    requires perChunk > 0 && n < pieces
    ensures 0 <= n / perChunk < ChunkCount(pieces, perChunk)
  {
    var q, c := n / perChunk, ChunkCount(pieces, perChunk);
    Bits.QuotientIsNat(n, perChunk);
    assert n == q * perChunk + n % perChunk;
    assert pieces + perChunk - 1 == c * perChunk + (pieces + perChunk - 1) % perChunk;
    assert c <= q ==> c * perChunk <= q * perChunk by {
      if c <= q {
        MulMonotone(c, q, perChunk);
      }
    }
  }

  /** `__seqno_to_orig_chunkid`. */
  function OrigChunk(n: nat, pieceLen: nat, perChunk: nat): int
    requires pieceLen > 0 && perChunk > 0 && perChunk * pieceLen > 0
  {
    (n * pieceLen) / (perChunk * pieceLen)
  }

  lemma OrigChunkIs(n: nat, pieceLen: nat, perChunk: nat)
    requires pieceLen > 0 && perChunk > 0 && perChunk * pieceLen > 0
    ensures OrigChunk(n, pieceLen, perChunk) == n / perChunk
  {
    var q, r := n / perChunk, n % perChunk;
    Bits.RemainderFits(r, 0, pieceLen, perChunk);
    OrigChunkValue(n, q, r, pieceLen, perChunk);
    Bits.QuotientUnique(n * pieceLen, q, r * pieceLen, perChunk * pieceLen);
  }

  lemma OrigChunkValue(n: int, q: int, r: int, pieceLen: int, perChunk: int)
    requires n == q * perChunk + r
    ensures n * pieceLen == q * (perChunk * pieceLen) + r * pieceLen
  {
    assert (q * perChunk + r) * pieceLen == (q * perChunk) * pieceLen + r * pieceLen;
    assert (q * perChunk) * pieceLen == q * (perChunk * pieceLen);
  }

  // -------------------------------------------------------------- what a write stores

  /** A piece is stored: its chunk has a slot and the piece has arrived. */
  ghost predicate Stored(d: Disk, perChunk: nat, id: Id, n: nat)
    requires perChunk > 0
  {
    var s := Slot(d, id, n / perChunk);
    s.Some? && 0 <= s.value < |d.chunks| && d.chunks[s.value].Some? && n % perChunk in d.chunks[s.value].value.bits
  }

  /** The state in which a write finds its slot: with one chunk less if it had to make room. */
  ghost predicate Evicts(d: Disk, victim: Option<int>, base: Disk) {
    if victim.None? then base == d
    else
      && 0 <= victim.value < |d.chunks| == |d.owners| && d.chunks[victim.value].Some?
      && base == Erased(d, victim.value)
  }

  /** The channel that a write uses. */
  function ChannelFor(d: Disk, slots: nat, perChunk: nat, id: Id, pieces: nat): Channel
    requires perChunk > 0
  {
    if id in d.channels then d.channels[id] else NewChannel(pieces, slots, perChunk)
  }

  /** The chunk of a write is in slot s: where it was, or in what was the first free slot. */
  ghost predicate Places(base: Disk, d: Disk, slots: nat, perChunk: nat, id: Id, pieces: nat, o: int, s: int)
    requires perChunk > 0
  {
    var c := ChannelFor(base, slots, perChunk, id, pieces);
    if Slot(base, id, o).Some? then Slot(base, id, o) == Some(s) && d == base
    else
      && s in base.holes && (forall h :: h in base.holes ==> s <= h)
      && 0 <= o < |c.toCache| && 0 <= s < |base.owners| == |base.chunks| == |c.toOrig|
      && d == Given(base, id, c, o, s)
  }

  ghost predicate Fits(slots: nat, perChunk: nat, pieces: nat)
    requires perChunk > 0
  {
    slots <= ChunkCount(pieces, perChunk) <= INVALID_CHUNK_ID
  }

  lemma CoverErased(d: Disk, slots: nat, s: nat, perChunk: nat)
    requires Inv(d, slots) && perChunk > 0 && Covers(d, slots, perChunk) && s < slots && d.chunks[s].Some?
    ensures s < OwnerChunks(d, s) && Inv(Erased(d, s), slots) && Covers(Erased(d, s), slots, perChunk)
  {
    assert SlotOk(d, s);
    EraseKeeps(d, slots, s);
  }

  lemma PlaceKeeps(base: Disk, d: Disk, slots: nat, perChunk: nat, id: Id, pieces: nat, o: int, s: int)
    requires Inv(base, slots) && perChunk > 0 && Fits(slots, perChunk, pieces)
    requires Places(base, d, slots, perChunk, id, pieces, o, s)
    ensures Inv(d, slots)
    ensures 0 <= s < slots && d.chunks[s].Some? && Slot(d, id, o) == Some(s)
    ensures Slot(base, id, o).None? ==> base.chunks[s].None? && d.chunks[s].value.bits == {}
    ensures forall t :: 0 <= t < slots && t != s ==> d.chunks[t] == base.chunks[t]
  {
    var c := ChannelFor(base, slots, perChunk, id, pieces);
    if Slot(base, id, o).Some? {
      OneOwner(base, slots, s, id, o);
    } else {
      GiveKeeps(base, slots, id, c, o, s);
      assert SlotOk(base, s);
    }
  }

  lemma PlaceCovers(base: Disk, d: Disk, slots: nat, perChunk: nat, id: Id, pieces: nat, o: int, s: int)
    requires perChunk > 0 && Covers(base, slots, perChunk) && Fits(slots, perChunk, pieces)
    requires Places(base, d, slots, perChunk, id, pieces, o, s)
    ensures Covers(d, slots, perChunk)
  {
  }

  /** No chunk but the placed one moves. */
  lemma PlaceMoves(base: Disk, d: Disk, slots: nat, perChunk: nat, id: Id, pieces: nat, o: int, s: int, i: Id, p: int)
    requires Inv(base, slots) && perChunk > 0 && Fits(slots, perChunk, pieces)
    requires Places(base, d, slots, perChunk, id, pieces, o, s)
    ensures Slot(d, i, p) == if i == id && p == o then Some(s) else Slot(base, i, p)
  {
    if Slot(base, id, o).None? {
      GivePlaces(base, slots, id, ChannelFor(base, slots, perChunk, id, pieces), o, s, i, p);
    }
  }

  /** Placing a chunk stores nothing and loses nothing. */
  lemma PlaceStores(base: Disk, d: Disk, slots: nat, perChunk: nat, id: Id, pieces: nat, o: int, s: int, i: Id, m: nat)
    requires Inv(base, slots) && perChunk > 0 && Covers(base, slots, perChunk) && Fits(slots, perChunk, pieces)
    requires Places(base, d, slots, perChunk, id, pieces, o, s)
    ensures Stored(d, perChunk, i, m) <==> Stored(base, perChunk, i, m)
  {
    PlaceKeeps(base, d, slots, perChunk, id, pieces, o, s);
    PlaceMoves(base, d, slots, perChunk, id, pieces, o, s, i, m / perChunk);
    var t := Slot(base, i, m / perChunk);
    if t.Some? && 0 <= t.value < slots {
      OneOwner(base, slots, t.value, i, m / perChunk);
    }
  }

  /** Erasing a slot loses the pieces in it and no others. */
  lemma EraseStores(d: Disk, slots: nat, perChunk: nat, s: nat, i: Id, m: nat)
    requires Inv(d, slots) && perChunk > 0 && s < slots && d.chunks[s].Some? && s < OwnerChunks(d, s)
    ensures Stored(Erased(d, s), perChunk, i, m) <==> Stored(d, perChunk, i, m) && Slot(d, i, m / perChunk) != Some(s)
  {
    EraseRemoves(d, slots, s, i, m / perChunk);
  }

  /** Recording a piece stores that piece. */
  lemma RecordStores(d: Disk, slots: nat, perChunk: nat, id: Id, n: nat, s: nat, i: Id, m: nat)
    requires Inv(d, slots) && perChunk > 0 && s < slots && d.chunks[s].Some? && Slot(d, id, n / perChunk) == Some(s)
    ensures Stored(Recorded(d, s, n % perChunk), perChunk, i, m) <==> (i == id && m == n) || Stored(d, perChunk, i, m)
  {
    OneOwner(d, slots, s, id, n / perChunk);
    OneOwner(d, slots, s, i, m / perChunk);
    assert n == n / perChunk * perChunk + n % perChunk;
    assert m == m / perChunk * perChunk + m % perChunk;
  }

  /** What a write that succeeds leaves stored: its piece, and all that was stored before except
      what was in the slot that made room. */
  lemma WriteStores(d: Disk, victim: Option<int>, base: Disk, mid: Disk, slots: nat, perChunk: nat,
                    id: Id, pieces: nat, n: nat, s: nat, i: Id, m: nat)
    requires Inv(d, slots) && perChunk > 0 && Covers(d, slots, perChunk) && Fits(slots, perChunk, pieces)
    requires Evicts(d, victim, base) && Places(base, mid, slots, perChunk, id, pieces, n / perChunk, s)
    ensures s < |mid.chunks| && mid.chunks[s].Some?
    ensures Stored(Recorded(mid, s, n % perChunk), perChunk, i, m) <==>
      (i == id && m == n) || (Stored(d, perChunk, i, m) && (victim.Some? ==> Slot(d, i, m / perChunk) != victim))
  {
    if victim.Some? {
      CoverErased(d, slots, victim.value, perChunk);
      EraseStores(d, slots, perChunk, victim.value, i, m);
    }
    PlaceKeeps(base, mid, slots, perChunk, id, pieces, n / perChunk, s);
    PlaceStores(base, mid, slots, perChunk, id, pieces, n / perChunk, s, i, m);
    RecordStores(mid, slots, perChunk, id, n, s, i, m);
  }

  // ----------------------------------------------------------------- where the bytes are

  /** `__piece_offset` of a piece in a slot. */
  function PieceOffset(s: nat, n: nat, pieceLen: nat, perChunk: nat): int
    requires perChunk > 0
  {
    SlotOffset(s, perChunk * pieceLen) + n % perChunk * pieceLen
  }

  lemma PieceOffsetIs(s: nat, n: nat, pieceLen: nat, perChunk: nat)
    requires perChunk > 0
    ensures PieceOffset(s, n, pieceLen, perChunk) == HEADER_LEN + (s * perChunk + n % perChunk) * pieceLen
  {
    OrigChunkValue(s * perChunk + n % perChunk, s, n % perChunk, pieceLen, perChunk);
  }

  lemma Apart(x: int, y: int, len: nat)
    requires x < y
    ensures x * len + len <= y * len
  {
    MulMonotone(x + 1, y, len);
  }

  /** Two different stored pieces never share a byte of the file. */
  lemma StoredApart(d: Disk, slots: nat, pieceLen: nat, perChunk: nat, i: Id, m: nat, j: Id, n: nat)
    requires Inv(d, slots) && perChunk > 0 && (i, m) != (j, n)
    requires Stored(d, perChunk, i, m) && Stored(d, perChunk, j, n)
    ensures var a := PieceOffset(Slot(d, i, m / perChunk).value, m, pieceLen, perChunk);
            var b := PieceOffset(Slot(d, j, n / perChunk).value, n, pieceLen, perChunk);
            a + pieceLen <= b || b + pieceLen <= a
  {
    var s, t := Slot(d, i, m / perChunk).value, Slot(d, j, n / perChunk).value;
    OneOwner(d, slots, s, i, m / perChunk);
    OneOwner(d, slots, s, j, n / perChunk);
    PieceOffsetIs(s, m, pieceLen, perChunk);
    PieceOffsetIs(t, n, pieceLen, perChunk);
    var x, y := s * perChunk + m % perChunk, t * perChunk + n % perChunk;
    Bits.QuotientUnique(x, s, m % perChunk, perChunk);
    Bits.QuotientUnique(y, t, n % perChunk, perChunk);
    assert x != y by {
      assert m == m / perChunk * perChunk + m % perChunk;
      assert n == n / perChunk * perChunk + n % perChunk;
    }
    if x < y {
      Apart(x, y, pieceLen);
    } else {
      Apart(y, x, pieceLen);
    }
  }

  /** A stored piece lies in its slot, after the header and before the end of the file. */
  lemma StoredInFile(d: Disk, slots: nat, pieceLen: nat, perChunk: nat, fileSize: int, i: Id, m: nat)
    requires Inv(d, slots) && perChunk > 0 && InFile(d, fileSize, perChunk * pieceLen) && Stored(d, perChunk, i, m)
    ensures var a := PieceOffset(Slot(d, i, m / perChunk).value, m, pieceLen, perChunk);
            HEADER_LEN <= a && a + pieceLen <= fileSize
  {
    var s, r := Slot(d, i, m / perChunk).value, m % perChunk;
    SlotOffsetMonotone(0, s, perChunk * pieceLen);
    SlotOffsetMonotone(s, s, perChunk * pieceLen);
    MulMonotone(r + 1, perChunk, pieceLen);
  }

  const INT64_MAX := 0x7fffffffffffffff

  function Min(a: int, b: int): int {
    if a < b then a else b
  }

  /** `__modify_filesize`. */
  function ModifiedLength(fileLen: int, chunkLen: nat): int
    requires chunkLen > 0
  {
    var len := Min(INT64_MAX - HEADER_LEN, fileLen);
    var capped := if Modular.TruncDiv(len, chunkLen) > MAX_SLOTS
                  then chunkLen * (HEADER_LEN - PARAM_LINE_LEN) / CHUNK_INFO_LINE_LEN else len;
    Modular.TruncDiv(capped, chunkLen) * chunkLen
  }

  /** The length is that of as many slots as fit, at most as many as the header describes. */
  lemma ModifiedLengthIs(fileLen: int, chunkLen: nat)
    requires chunkLen > 0
    ensures fileLen < 0 ==> ModifiedLength(fileLen, chunkLen) <= 0
    ensures fileLen >= 0 ==>
      var n := Min(Min(fileLen, INT64_MAX - HEADER_LEN) / chunkLen, MAX_SLOTS);
      n >= 0 && ModifiedLength(fileLen, chunkLen) == n * chunkLen && ModifiedLength(fileLen, chunkLen) / chunkLen == n
  {
    var len := Min(INT64_MAX - HEADER_LEN, fileLen);
    if fileLen < 0 {
      Bits.QuotientIsNat(-len, chunkLen);
      MulMonotone(Modular.TruncDiv(len, chunkLen), 0, chunkLen);
    } else {
      Bits.QuotientIsNat(len, chunkLen);
      var n := Min(len / chunkLen, MAX_SLOTS);
      Bits.QuotientUnique(chunkLen * (HEADER_LEN - PARAM_LINE_LEN), MAX_SLOTS * chunkLen, 0, CHUNK_INFO_LINE_LEN);
      Bits.QuotientUnique(MAX_SLOTS * chunkLen, MAX_SLOTS, 0, chunkLen);
      Bits.QuotientUnique(n * chunkLen, n, 0, chunkLen);
    }
  }

  /** How many slots a file has. */
  function SlotCount(fileLen: int, chunkLen: nat): (n: nat)
    requires chunkLen > 0
    ensures n as int == if fileLen < 0 then 0 else Min(Min(fileLen, INT64_MAX - HEADER_LEN) / chunkLen, MAX_SLOTS)
  {
    SlotsAre(fileLen, chunkLen);
    var len := ModifiedLength(fileLen, chunkLen);
    if len > 0 then len / chunkLen else 0
  }

  lemma SlotsAre(fileLen: int, chunkLen: nat)
    requires chunkLen > 0
    ensures var len := ModifiedLength(fileLen, chunkLen);
            (if len > 0 then len / chunkLen else 0)
            == if fileLen < 0 then 0 else Min(Min(fileLen, INT64_MAX - HEADER_LEN) / chunkLen, MAX_SLOTS)
    ensures fileLen >= 0 ==> Min(fileLen, INT64_MAX - HEADER_LEN) / chunkLen >= 0
  {
    ModifiedLengthIs(fileLen, chunkLen);
    if fileLen >= 0 {
      Bits.QuotientIsNat(Min(fileLen, INT64_MAX - HEADER_LEN), chunkLen);
      Modular.ProductBelow(Min(Min(fileLen, INT64_MAX - HEADER_LEN) / chunkLen, MAX_SLOTS), chunkLen);
    }
  }

  lemma PiecesFill(chunkLen: nat, pieceLen: nat)
    requires 0 < pieceLen <= chunkLen && chunkLen % pieceLen == 0
    ensures chunkLen / pieceLen > 0 && chunkLen / pieceLen * pieceLen == chunkLen
  {
    Modular.QuotientBounds(chunkLen, pieceLen);
  }

  ghost function Range(n: nat): (r: set<int>)
    ensures |r| == n && forall x :: x in r <==> 0 <= x < n
  {
    if n == 0 then {} else Range(n - 1) + {n - 1}
  }

  /** The loops that reset the header of every slot and make every slot a hole. */
  method FreeSlots(slots: nat) returns (owners: seq<Option<Id>>, holes: set<int>)
    ensures |owners| == slots && (forall s :: 0 <= s < slots ==> owners[s] == None) && holes == Range(slots)
  {
    owners, holes := [], {};
    for i := 0 to slots
      invariant |owners| == i && (forall s :: 0 <= s < i ==> owners[s] == None) && holes == Range(i)
    {
      owners := owners + [None];
      holes := holes + {i};
    }
  }

  /** A file in which every slot is free. */
  lemma FreshKeeps(d: Disk, slots: nat, fileSize: int, chunkLen: nat)
    requires |d.owners| == |d.chunks| == slots <= MAX_SLOTS && d.channels == map[] && d.used == 0 && d.holes == Range(slots)
    requires forall s :: 0 <= s < slots ==> d.owners[s] == None && d.chunks[s] == None
    requires fileSize >= HEADER_LEN
    ensures Inv(d, slots) && InFile(d, fileSize, chunkLen)
  {
    assert forall s :: 0 <= s < slots ==> SlotOk(d, s);
  }

  // ---------------------------------------------------------------------------- the cache

  /** Which of the operations that a write may need would succeed: the disk has space for a chunk more,
      the file can be made longer, the header of a slot can be read and cleared, and the piece can be
      written.  A write performs each of them at most once. */
  datatype Io = Io(space: bool, grown: bool, readable: bool, cleared: bool, written: bool)

  /** The chunk of the piece has no slot, and no slot within the file is free. */
  ghost predicate Cramped(known: bool, room: bool) {
    !known && !room
  }

  /** A write then takes a slot back, if all are used or the disk is full; */
  ghost predicate Erases(known: bool, room: bool, used: int, slots: nat, io: Io) {
    Cramped(known, room) && used > 0 && (used == slots || !io.space)
  }

  /** or makes the file longer; */
  ghost predicate Grows(known: bool, room: bool, used: int, slots: nat, io: Io) {
    Cramped(known, room) && used != slots && io.space
  }

  /** or gives up. */
  ghost predicate GivesUp(known: bool, room: bool, used: int, slots: nat, io: Io) {
    Cramped(known, room) && used == 0 && used != slots && !io.space
  }

  /** An operation that is performed to get a slot fails. */
  ghost predicate SlotFails(known: bool, room: bool, used: int, slots: nat, io: Io) {
    || (Erases(known, room, used, slots, io) && !(io.readable && io.cleared))
    || (Grows(known, room, used, slots, io) && !io.grown)
  }

  datatype Attempt = Ready | Retry | Refused | Broken | Beyond

  /** How an attempt to find a slot ends. */
  ghost function AttemptOf(known: bool, room: bool, used: int, slots: nat, io: Io, past: bool): Attempt {
    if SlotFails(known, room, used, slots, io) then Broken
    else if Erases(known, room, used, slots, io) then Retry
    else if GivesUp(known, room, used, slots, io) then Refused
    else if past then Beyond
    else Ready
  }

  /** How a write ends.  `PastTable` is a write that indexes the chunk table of a new channel past its
      end; the code goes on from there with whatever it overwrites, the model stops. */
  datatype Outcome = Written | Closed | OutOfRange | NoSpace | Failed | PastTable

  /** How a write to an open cache ends, if the piece is in range: an operation that it performs fails,
      it gives up, it goes past the chunk table, or it is done. */
  ghost function OutcomeOf(known: bool, room: bool, used: int, slots: nat, io: Io, past: bool): Outcome {
    if SlotFails(known, room, used, slots, io) then Failed
    else if GivesUp(known, room, used, slots, io) then NoSpace
    else if past then PastTable
    else if io.written then Written
    else Failed
  }

  /** The outcome of a write by that of its last attempt. */
  function Final(t: Attempt): Outcome
    requires t != Retry
  {
    match t
    case Ready => Written
    case Refused => NoSpace
    case Broken => Failed
    case Beyond => PastTable
  }

  lemma FinalIs(known: bool, room: bool, used: int, slots: nat, io: Io, past: bool)
    ensures var a := AttemptOf(known, room, used, slots, io, past);
            var r := OutcomeOf(known, room, used, slots, io, past);
            && (a == Ready && !io.written ==> r == Failed)
            && (a == Retry ==> r == if past then PastTable else if io.written then Written else Failed)
            && (a != Retry && (a == Ready ==> io.written) ==> r == Final(a))
            && (a == Retry <==> Erases(known, room, used, slots, io) && io.readable && io.cleared)
  {
  }

  /** A write fails exactly if an operation that it performs fails: reading or clearing the slot that
      is taken back, growing the file, or writing the piece, which it comes to unless it gives up or
      goes past the table.  If none fails it ends as it should. */
  lemma FailedIff(known: bool, room: bool, used: int, slots: nat, io: Io, past: bool)
    ensures OutcomeOf(known, room, used, slots, io, past) == Failed <==>
      || (Erases(known, room, used, slots, io) && !(io.readable && io.cleared))
      || (Grows(known, room, used, slots, io) && !io.grown)
      || (!GivesUp(known, room, used, slots, io) && !past && !io.written)
    ensures io == Io(true, true, true, true, true) && !past ==> OutcomeOf(known, room, used, slots, io, past) == Written
  {
  }

  class Cache {
    const slots: nat
    const pieceLen: nat
    const perChunk: nat
    var isOpen: bool
    var owners: seq<Option<Id>>
    var channels: map<Id, Channel>
    var chunks: seq<Option<Chunk>>
    var holes: set<int>
    var used: int
    var lastRw: Option<Id>
    var fileSize: int

    function View(): Disk
      reads this`owners, this`channels, this`chunks, this`holes, this`used
    {
      Disk(owners, channels, chunks, holes, used)
    }

    function ChunkLen(): nat {
      perChunk * pieceLen
    }

    ghost predicate Valid()
      reads this`owners, this`channels, this`chunks, this`holes, this`used, this`isOpen, this`fileSize
    {
      && perChunk > 0 && pieceLen > 0 && ChunkLen() > 0
      && if isOpen then Inv(View(), slots) && Covers(View(), slots, perChunk) && InFile(View(), fileSize, ChunkLen())
         else channels == map[] && chunks == [] && holes == {} && used == 0
    }

    /** The sizes of a cache, before its file is opened. */
    constructor (fileLen: int, chunkLen: nat, pieceLen: nat)
      requires 0 < pieceLen <= chunkLen && chunkLen % pieceLen == 0
      requires chunkLen * (HEADER_LEN - PARAM_LINE_LEN) <= INT64_MAX
      ensures Valid() && !isOpen && this.pieceLen == pieceLen && ChunkLen() == chunkLen
      ensures slots as int == if fileLen < 0 then 0 else Min(Min(fileLen, INT64_MAX - HEADER_LEN) / chunkLen, MAX_SLOTS)
    {
      PiecesFill(chunkLen, pieceLen);
      this.pieceLen, perChunk, slots := pieceLen, chunkLen / pieceLen, SlotCount(fileLen, chunkLen);
      isOpen, fileSize, lastRw := false, 0, None;
      owners, channels, chunks, holes, used := [], map[], [], {}, 0;
    }

    /** `__do_open` where there is no usable file: a new file in which every slot is free.  Without
        a slot, without disk space or after an error of a file operation the cache stays closed. */
    method CreateFile(space: bool, written: bool) returns (ok: bool)
      requires Valid() && !isOpen && slots <= MAX_SLOTS
      modifies this
      ensures Valid() && isOpen == ok && (ok <==> slots > 0 && space && written)
      ensures channels == map[] && used == 0 && holes == if ok then Range(slots) else {}
      ensures ok ==> fileSize == HEADER_LEN + if PARAM_LINE_LEN + slots * CHUNK_INFO_LINE_LEN < HEADER_LEN then 1 else 0
    {
      if slots == 0 || !space {
        Close();
        return false;
      }
      owners, holes := FreeSlots(slots);
      if !written {
        Close();
        return false;
      }
      fileSize := if PARAM_LINE_LEN + slots * CHUNK_INFO_LINE_LEN < HEADER_LEN then HEADER_LEN + 1 else HEADER_LEN;
      chunks := seq(slots, _ => None);
      FreshKeeps(View(), slots, fileSize, ChunkLen());
      isOpen, ok := true, true;
    }

    /** `__close`. */
    method Close()
      requires perChunk > 0 && pieceLen > 0 && ChunkLen() > 0
      modifies this
      ensures Valid() && !isOpen && fileSize == old(fileSize) && lastRw == old(lastRw)
    {
      used, channels, chunks, holes, isOpen := 0, map[], [], {}, false;
    }

    /** Takes a used slot back; what erasing does when no file operation fails. */
    method EraseSlot(s: nat, io: Io) returns (ok: bool)
      requires Valid() && isOpen && s < slots && chunks[s].Some?
      modifies this
      ensures Valid() && isOpen == ok && (ok <==> io.readable && io.cleared) && fileSize == old(fileSize) && lastRw == old(lastRw)
      ensures ok ==> View() == Erased(old(View()), s)
    {
      ok := io.readable && io.cleared;
      if !io.readable {
        Close();
        return;
      }
      CoverErased(View(), slots, s, perChunk);
      ghost var erased := Erased(View(), s);
      channels := ChannelsErased(View(), s);
      chunks := chunks[s := None];
      holes := holes + {s};
      if !ok {
        Close();
        return;
      }
      owners := owners[s := None];
      used := used - 1;
      assert View() == erased;
    }

    /** `__erase_chunk`: takes back the slot given, or one that it chooses itself. */
    method EraseChunk(slot: int, io: Io) returns (ok: bool, ghost victim: Option<int>)
      requires Valid() && isOpen
      requires if slot < 0 then used == slots else slot < slots && chunks[slot].Some?
      modifies this
      ensures Valid() && isOpen == ok && fileSize == old(fileSize) && lastRw == old(lastRw)
      ensures ok <==> old(used) == 0 || (io.readable && io.cleared)
      ensures ok ==> Evicts(old(View()), victim, View()) && (old(used) > 0 ==> victim.Some?)
      ensures victim.Some? ==>
        if slot < 0
        then SlotOfLeast(old(channels), lastRw, victim.value) || forall id :: id in old(channels) ==> Some(id) == lastRw
        else victim.value == slot
    {
      SubsetSize(holes, slots);
      if used == 0 {
        return true, None;
      }
      var s := slot;
      if slot < 0 {
        s := FindErasable(View(), slots, lastRw);
        FoundIsUsed(View(), slots, lastRw, s);
      }
      victim := Some(s);
      ok := EraseSlot(s, io);
    }

    /** There is a free slot within the file. */
    ghost predicate HasRoom()
      reads this`holes, this`fileSize
    {
      exists h :: h in holes && SlotOffset(h + 1, ChunkLen()) <= fileSize
    }

    /** Gives the first free slot to a chunk. */
    method GiveSlot(id: Id, pieces: nat, o: nat, s: nat)
      requires Valid() && isOpen && Fits(slots, perChunk, pieces) && Slot(View(), id, o).None?
      requires s in holes && (forall h :: h in holes ==> s <= h) && SlotOffset(s + 1, ChunkLen()) <= fileSize
      requires o < |ChannelFor(View(), slots, perChunk, id, pieces).toCache|
      modifies this
      ensures Valid() && isOpen && Places(old(View()), View(), slots, perChunk, id, pieces, o, s)
      ensures lastRw == old(lastRw) && fileSize == old(fileSize)
    {
      var c := ChannelFor(View(), slots, perChunk, id, pieces);
      ghost var given := Given(View(), id, c, o, s);
      assert Places(View(), given, slots, perChunk, id, pieces, o, s);
      PlaceKeeps(View(), given, slots, perChunk, id, pieces, o, s);
      PlaceCovers(View(), given, slots, perChunk, id, pieces, o, s);
      holes := holes - {s};
      channels := channels[id := ChannelGiven(c, o, s)];
      chunks := chunks[s := Some(Chunk(o, 0, {}))];
      used := used + 1;
      owners := owners[s := Some(id)];
      assert View() == given;
    }

    /** Takes a slot back, after which there is room. */
    method Reclaim(slot: int, io: Io) returns (r: Attempt, ghost victim: Option<int>)
      requires Valid() && isOpen && used > 0
      requires if slot < 0 then used == slots else slot < slots && chunks[slot].Some?
      modifies this
      ensures Valid() && r == (if io.readable && io.cleared then Retry else Broken) && lastRw == old(lastRw) && fileSize == old(fileSize)
      ensures r == Retry ==> isOpen && HasRoom() && victim.Some? && Evicts(old(View()), victim, View())
      ensures r == Retry ==>
        if slot < 0
        then SlotOfLeast(old(channels), lastRw, victim.value) || forall id :: id in old(channels) ==> Some(id) == lastRw
        else victim.value == slot
      ensures r == Broken ==> !isOpen
    {
      var ok: bool;
      ok, victim := EraseChunk(slot, io);
      if !ok {
        return Broken, None;
      }
      assert victim.value in holes;
      r := Retry;
    }

    /** The first free slot lies beyond the end of the file: the file grows by one chunk if the
        disk has the space, otherwise a slot is taken back. */
    method Extend(id: Id, o: nat, s: nat, io: Io) returns (r: Attempt, ghost victim: Option<int>)
      requires Valid() && isOpen && s in holes && (forall h :: h in holes ==> s <= h)
      requires SlotOffset(s + 1, ChunkLen()) > fileSize
      modifies this
      ensures Valid() && lastRw == old(lastRw)
      ensures r == if io.space then (if io.grown then Ready else Broken)
                   else if old(used) == 0 then Refused
                   else if io.readable && io.cleared then Retry else Broken
      ensures r == Broken ==> isOpen == io.space
      ensures fileSize == old(fileSize) + if r == Ready then ChunkLen() else 0
      ensures r == Retry ==> victim.Some? && Chosen(old(View()), slots, lastRw, id, o, victim.value)
      ensures r == Ready ==> isOpen && View() == old(View()) && SlotOffset(s + 1, ChunkLen()) <= fileSize
      ensures r == Retry ==> isOpen && HasRoom() && victim.Some? && Evicts(old(View()), victim, View())
      ensures r == Refused ==> View() == old(View()) && isOpen
      ensures !old(HasRoom())
      ensures r == Broken ==> !isOpen || View() == old(View())
    {
      victim := None;
      NoRoom(holes, s, fileSize, ChunkLen());
      if io.space {
        if !io.grown {
          return Broken, None;
        }
        FirstHoleReached(View(), slots, s, fileSize, ChunkLen());
        fileSize := fileSize + ChunkLen();
        return Ready, None;
      }
      SubsetSize(holes, slots);
      if used == 0 {
        return Refused, None;
      }
      var e := FindErasableFor(View(), slots, id, o);
      FoundForIsUsed(View(), slots, id, o, e);
      r, victim := Reclaim(e, io);
    }

    /** One attempt to find a slot for a chunk.  If a slot had to be taken back, the write starts
        again; then there is room. */
    method TryPlace(id: Id, pieces: nat, o: nat, io: Io) returns (r: Attempt, s: nat, ghost victim: Option<int>)
      requires Valid() && isOpen && slots > 0 && Fits(slots, perChunk, pieces)
      requires id in channels ==> o < |channels[id].toCache|
      modifies this
      ensures Valid() && lastRw == old(lastRw) && (fileSize == old(fileSize) || (fileSize == old(fileSize) + ChunkLen() && r != Retry))
      ensures r == AttemptOf(Slot(old(View()), id, o).Some?, old(HasRoom()), old(used), slots, io, PastEnd(old(View()), id, pieces, o))
      ensures r == Broken ==> isOpen == !Erases(Slot(old(View()), id, o).Some?, old(HasRoom()), old(used), slots, io)
      ensures r == Retry ==> victim.Some? && Chosen(old(View()), slots, lastRw, id, o, victim.value)
      ensures r == Ready ==> isOpen && Places(old(View()), View(), slots, perChunk, id, pieces, o, s)
      ensures r == Beyond ==> isOpen && View() == old(View())
      ensures r == Retry ==>
        && isOpen && HasRoom()
        && victim.Some? && Evicts(old(View()), victim, View())
      ensures r == Refused ==> View() == old(View()) && isOpen
      ensures r == Broken ==> !isOpen || View() == old(View())
    {
      KnownSlot(View(), slots, id, o);
      if id in channels && channels[id].toCache[o] != INVALID_CHUNK_ID {
        return Ready, channels[id].toCache[o], None;
      }
      r, s, victim := Allocate(id, pieces, o, io);
    }

    /** The attempt for a chunk that is not cached. */
    method Allocate(id: Id, pieces: nat, o: nat, io: Io) returns (r: Attempt, s: nat, ghost victim: Option<int>)
      requires Valid() && isOpen && slots > 0 && Fits(slots, perChunk, pieces)
      requires (id in channels ==> o < |channels[id].toCache|) && Slot(View(), id, o).None?
      modifies this
      ensures Valid() && lastRw == old(lastRw) && (fileSize == old(fileSize) || (fileSize == old(fileSize) + ChunkLen() && r != Retry))
      ensures r == AttemptOf(false, old(HasRoom()), old(used), slots, io, PastEnd(old(View()), id, pieces, o))
      ensures r == Broken ==> isOpen == !Erases(false, old(HasRoom()), old(used), slots, io)
      ensures r == Retry ==> victim.Some? && Chosen(old(View()), slots, lastRw, id, o, victim.value)
      ensures r == Ready ==> isOpen && Places(old(View()), View(), slots, perChunk, id, pieces, o, s)
      ensures r == Beyond ==> isOpen && View() == old(View())
      ensures r == Retry ==>
        isOpen && HasRoom() && victim.Some? && Evicts(old(View()), victim, View())
      ensures r == Refused ==> View() == old(View()) && isOpen
      ensures r == Broken ==> !isOpen || View() == old(View())
    {
      s := 0;
      SubsetSize(holes, slots);
      if used == slots {
        assert holes == {} && !HasRoom();
        r, victim := Reclaim(-1, io);
      } else {
        r, s, victim := Occupy(id, pieces, o, io);
      }
    }

    /** The same when a slot is free. */
    method Occupy(id: Id, pieces: nat, o: nat, io: Io) returns (r: Attempt, s: nat, ghost victim: Option<int>)
      requires Valid() && isOpen && 0 <= used && used != slots && Fits(slots, perChunk, pieces)
      requires (id in channels ==> o < |channels[id].toCache|) && Slot(View(), id, o).None?
      modifies this
      ensures Valid() && lastRw == old(lastRw) && (fileSize == old(fileSize) || (fileSize == old(fileSize) + ChunkLen() && r != Retry))
      ensures r == AttemptOf(false, old(HasRoom()), old(used), slots, io, PastEnd(old(View()), id, pieces, o))
      ensures r == Broken ==> isOpen == !Erases(false, old(HasRoom()), old(used), slots, io)
      ensures r == Retry ==> victim.Some? && Chosen(old(View()), slots, lastRw, id, o, victim.value)
      ensures r == Ready ==> isOpen && Places(old(View()), View(), slots, perChunk, id, pieces, o, s)
      ensures r == Beyond ==> isOpen && View() == old(View())
      ensures r == Retry ==>
        isOpen && HasRoom() && victim.Some? && Evicts(old(View()), victim, View())
      ensures r == Refused ==> View() == old(View()) && isOpen
      ensures r == Broken ==> !isOpen || View() == old(View())
    {
      victim := None;
      s := First(holes, slots);
      if SlotOffset(s + 1, ChunkLen()) <= fileSize {
        assert HasRoom();
        r := GiveOrStop(id, pieces, o, s);
      } else {
        r, victim := OccupyBehind(id, pieces, o, s, io);
      }
    }

    /** The same when the first free slot lies beyond the end of the file. */
    method OccupyBehind(id: Id, pieces: nat, o: nat, s: nat, io: Io) returns (r: Attempt, ghost victim: Option<int>)
      requires Valid() && isOpen && 0 <= used && used != slots && Fits(slots, perChunk, pieces)
      requires (id in channels ==> o < |channels[id].toCache|) && Slot(View(), id, o).None?
      requires s in holes && (forall h :: h in holes ==> s <= h) && SlotOffset(s + 1, ChunkLen()) > fileSize
      modifies this
      ensures Valid() && lastRw == old(lastRw) && (fileSize == old(fileSize) || (fileSize == old(fileSize) + ChunkLen() && r != Retry))
      ensures r == AttemptOf(false, old(HasRoom()), old(used), slots, io, PastEnd(old(View()), id, pieces, o))
      ensures r == Broken ==> isOpen == !Erases(false, old(HasRoom()), old(used), slots, io)
      ensures r == Retry ==> victim.Some? && Chosen(old(View()), slots, lastRw, id, o, victim.value)
      ensures r == Ready ==> isOpen && Places(old(View()), View(), slots, perChunk, id, pieces, o, s)
      ensures r == Beyond ==> isOpen && View() == old(View())
      ensures r == Retry ==>
        isOpen && HasRoom() && victim.Some? && Evicts(old(View()), victim, View())
      ensures r == Refused ==> View() == old(View()) && isOpen
      ensures r == Broken ==> !isOpen || View() == old(View())
    {
      r, victim := Extend(id, o, s, io);
      if r == Ready {
        r := GiveOrStop(id, pieces, o, s);
      }
    }

    /** Gives the slot to the chunk, unless the table of a new channel has no place for it. */
    method GiveOrStop(id: Id, pieces: nat, o: nat, s: nat) returns (r: Attempt)
      requires Valid() && isOpen && Fits(slots, perChunk, pieces) && Slot(View(), id, o).None?
      requires s in holes && (forall h :: h in holes ==> s <= h) && SlotOffset(s + 1, ChunkLen()) <= fileSize
      requires id in channels ==> o < |channels[id].toCache|
      modifies this
      ensures Valid() && isOpen && lastRw == old(lastRw) && fileSize == old(fileSize)
      ensures r == if PastEnd(old(View()), id, pieces, o) then Beyond else Ready
      ensures r == Beyond ==> View() == old(View())
      ensures r == Ready ==> Places(old(View()), View(), slots, perChunk, id, pieces, o, s)
    {
      if o >= |ChannelFor(View(), slots, perChunk, id, pieces).toCache| {
        return Beyond;
      }
      GiveSlot(id, pieces, o, s);
      r := Ready;
    }

    /** A chunk of a new channel that its chunk table has no place for. */
    ghost predicate PastEnd(d: Disk, id: Id, pieces: nat, o: int) {
      perChunk > 0 && id !in d.channels && o >= ChunkCount(pieces, perChunk)
    }

    /** The data of a piece is written and the piece recorded, or the cache is closed. */
    method Record(s: nat, n: nat, io: Io) returns (ok: bool)
      requires Valid() && isOpen && s < slots && chunks[s].Some?
      modifies this
      ensures Valid() && isOpen == ok && ok == io.written && lastRw == old(lastRw) && fileSize == old(fileSize)
      ensures ok ==> View() == Recorded(old(View()), s, n % perChunk)
    {
      RecordKeeps(View(), slots, s, n % perChunk);
      ok := io.written;
      if !ok {
        Close();
        return;
      }
      var k := chunks[s].value;
      if n % perChunk !in k.bits {
        chunks := chunks[s := Some(k.(count := k.count + 1, bits := k.bits + {n % perChunk}))];
      }
    }

    /** One attempt to write a piece of a chunk. */
    method TryWrite(id: Id, pieces: nat, n: nat, io: Io) returns (r: Attempt, s: nat, ghost victim: Option<int>, ghost mid: Disk)
      requires Valid() && isOpen && slots > 0 && Fits(slots, perChunk, pieces)
      requires id in channels ==> n < channels[id].pieces
      modifies this
      ensures Valid() && lastRw == old(lastRw) && (fileSize == old(fileSize) || (fileSize == old(fileSize) + ChunkLen() && r != Retry))
      ensures var a := AttemptOf(Slot(old(View()), id, n / perChunk).Some?, old(HasRoom()), old(used), slots, io,
                                 PastEnd(old(View()), id, pieces, n / perChunk));
              r == if a == Ready && !io.written then Broken else a
      ensures r == Retry ==> victim.Some? && Chosen(old(View()), slots, lastRw, id, n / perChunk, victim.value)
      ensures r == Ready ==> isOpen && StoresIn(old(View()), mid, View(), id, pieces, n, s)
      ensures r == Beyond ==> isOpen && View() == old(View())
      ensures r == Retry ==>
        && isOpen && HasRoom()
        && victim.Some? && Evicts(old(View()), victim, View())
      ensures r == Refused ==> View() == old(View()) && isOpen
    {
      if id in channels {
        ChunkCountHolds(channels[id].pieces, perChunk, n);
      }
      Bits.QuotientIsNat(n, perChunk);
      OrigChunkIs(n, pieceLen, perChunk);
      var o := OrigChunk(n, pieceLen, perChunk);
      ghost var base := View();
      r, s, victim := TryPlace(id, pieces, o, io);
      mid := View();
      if r == Ready {
        PlaceKeeps(base, mid, slots, perChunk, id, pieces, o, s);
        var ok := Record(s, n, io);
        r := if ok then Ready else Broken;
      }
    }

    /** A piece is placed and recorded in slot s. */
    ghost predicate StoresIn(base: Disk, mid: Disk, d: Disk, id: Id, pieces: nat, n: nat, s: nat) {
      && perChunk > 0 && Places(base, mid, slots, perChunk, id, pieces, n / perChunk, s)
      && s < |mid.chunks| && mid.chunks[s].Some? && d == Recorded(mid, s, n % perChunk)
    }

    /** How a write ends, and that a slot is taken back exactly if that is needed and works. */
    ghost predicate Ends(d: Disk, room: bool, io: Io, base: Disk, id: Id, pieces: nat, n: nat, r: Outcome,
                         victim: Option<int>)
    {
      perChunk > 0 &&
      var known := Slot(d, id, n / perChunk).Some?;
      && r == OutcomeOf(known, room, d.used, slots, io, PastEnd(base, id, pieces, n / perChunk))
      && (victim.Some? <==> Erases(known, room, d.used, slots, io) && io.readable && io.cleared)
    }

    /** `__do_write_piece`.  At most one chunk is erased for a write, and none if there is room or
        the chunk of the piece is cached already. */
    method Write(id: Id, pieces: nat, n: nat, io: Io)
      returns (r: Outcome, s: nat, ghost victim: Option<int>, ghost base: Disk, ghost mid: Disk)
      requires Valid() && Fits(slots, perChunk, pieces)
      modifies this
      ensures Valid()
      ensures r == Written ==> isOpen && StoresIn(base, mid, View(), id, pieces, n, s)
      ensures r == PastTable ==> isOpen && View() == base
      ensures victim.Some? ==> Chosen(old(View()), slots, lastRw, id, n / perChunk, victim.value)
      ensures lastRw == if old(isOpen) && slots > 0 && id in old(channels) then Some(id) else old(lastRw)
      ensures fileSize == old(fileSize) || fileSize == old(fileSize) + ChunkLen()
      ensures r == OutOfRange <==> old(isOpen) && slots > 0 && id in old(channels) && old(channels)[id].pieces <= n
      ensures r == NoSpace ==> View() == old(View())
      ensures r == Closed <==> !old(isOpen) || slots == 0
      ensures r == OutOfRange || r == Closed ==> View() == old(View()) && victim.None?
      ensures r != Closed && r != OutOfRange ==> Ends(old(View()), old(HasRoom()), io, base, id, pieces, n, r, victim)
      ensures Evicts(old(View()), victim, base)
      decreases !HasRoom(), 1
    {
      s, victim, base, mid := 0, None, View(), View();
      if slots == 0 || !isOpen {
        return Closed, s, victim, base, mid;
      }
      Touch(id);
      if id in channels && n >= channels[id].pieces {
        return OutOfRange, s, victim, base, mid;
      }
      r, s, victim, base, mid := WriteInRange(id, pieces, n, io);
    }

    /** The channel of a write is the last used one, if it is known. */
    method Touch(id: Id)
      modifies this`lastRw
      ensures lastRw == if id in channels then Some(id) else old(lastRw)
    {
      if id in channels {
        lastRw := Some(id);
      }
    }

    /** The part of the write behind the checks. */
    method WriteInRange(id: Id, pieces: nat, n: nat, io: Io)
      returns (r: Outcome, s: nat, ghost victim: Option<int>, ghost base: Disk, ghost mid: Disk)
      requires Valid() && isOpen && slots > 0 && Fits(slots, perChunk, pieces)
      requires if id in channels then n < channels[id].pieces && lastRw == Some(id) else true
      modifies this
      ensures Valid() && lastRw == old(lastRw) && (fileSize == old(fileSize) || fileSize == old(fileSize) + ChunkLen())
      ensures Ends(old(View()), old(HasRoom()), io, base, id, pieces, n, r, victim)
      ensures Evicts(old(View()), victim, base)
      ensures r == Written ==> isOpen && StoresIn(base, mid, View(), id, pieces, n, s)
      ensures r == PastTable ==> isOpen && View() == base
      ensures victim.Some? ==> Chosen(old(View()), slots, lastRw, id, n / perChunk, victim.value)
      ensures r == NoSpace ==> View() == old(View())
      decreases !HasRoom(), 0
    {
      victim, base := None, View();
      var t: Attempt;
      ghost var gone;
      t, s, gone, mid := TryWrite(id, pieces, n, io);
      if t == Retry {
        ErasedPieces(base, gone.value, id);
        r, s, base, mid := Again(id, pieces, n, io);
        victim := gone;
      } else {
        r := Final(t);
      }
      FinalIs(Slot(old(View()), id, n / perChunk).Some?, old(HasRoom()), old(used), slots, io,
              PastEnd(base, id, pieces, n / perChunk));
    }

    /** The write starts again after a slot was taken back: now there is room. */
    method Again(id: Id, pieces: nat, n: nat, io: Io) returns (r: Outcome, s: nat, ghost base: Disk, ghost mid: Disk)
      requires Valid() && isOpen && slots > 0 && Fits(slots, perChunk, pieces) && HasRoom()
      requires id in channels ==> n < channels[id].pieces
      modifies this
      ensures Valid() && base == old(View())
      ensures r == if PastEnd(base, id, pieces, n / perChunk) then PastTable else if io.written then Written else Failed
      ensures r == Written ==> isOpen && StoresIn(base, mid, View(), id, pieces, n, s)
      ensures r == PastTable ==> isOpen && View() == base
      ensures lastRw == if id in old(channels) then Some(id) else old(lastRw)
      ensures fileSize == old(fileSize) || fileSize == old(fileSize) + ChunkLen()
      decreases !HasRoom(), 2
    {
      ghost var none, same;
      base := View();
      r, s, none, same, mid := Write(id, pieces, n, io);
    }

    /** `do_write_piece`: a write that succeeds stores its piece and loses nothing but what was in
        the one slot that it may have taken back; a write that finds room loses nothing. */
    method WritePiece(id: Id, pieces: nat, n: nat, io: Io)
      returns (r: Outcome, ghost victim: Option<int>, ghost base: Disk)
      requires Valid() && Fits(slots, perChunk, pieces)
      modifies this
      ensures Valid() && Evicts(old(View()), victim, base)
      ensures r != Closed && r != OutOfRange ==> Ends(old(View()), old(HasRoom()), io, base, id, pieces, n, r, victim)
      ensures r == Written ==> forall i, m: nat ::
        Stored(View(), perChunk, i, m) <==>
          (i == id && m == n) ||
          (Stored(old(View()), perChunk, i, m) && (victim.Some? ==> Slot(old(View()), i, m / perChunk) != victim))
      ensures victim.Some? ==> Chosen(old(View()), slots, lastRw, id, n / perChunk, victim.value)
      ensures id !in old(channels) && (r == Written || r == PastTable) ==>
        (r == PastTable <==> n / perChunk >= ChunkCount(pieces, perChunk))
      ensures id in old(channels) && r == PastTable ==> victim.Some? && id !in channels
      ensures r in {OutOfRange, NoSpace, Closed} ==> View() == old(View())
      ensures r == OutOfRange <==> old(isOpen) && slots > 0 && id in old(channels) && old(channels)[id].pieces <= n
      ensures r == Closed <==> !old(isOpen) || slots == 0
    {
      ghost var before := View();
      var s: nat;
      ghost var mid;
      r, s, victim, base, mid := Write(id, pieces, n, io);
      if victim.Some? && (r == Written || r == PastTable) {
        ErasedPieces(before, victim.value, id);
      }
      if r == Written {
        forall i, m: nat ensures
          Stored(View(), perChunk, i, m) <==>
            (i == id && m == n) ||
            (Stored(before, perChunk, i, m) && (victim.Some? ==> Slot(before, i, m / perChunk) != victim))
        {
          WriteStores(before, victim, base, mid, slots, perChunk, id, pieces, n, s, i, m);
        }
      }
    }

    /** `__piece_offset`: where a piece is in the file, or -1 if it is not stored. */
    method FindPiece(id: Id, n: nat) returns (offset: int)
      requires Valid()
      modifies this`lastRw
      ensures lastRw == if id in channels then Some(id) else old(lastRw)
      ensures if isOpen && Stored(View(), perChunk, id, n)
              then offset == PieceOffset(Slot(View(), id, n / perChunk).value, n, pieceLen, perChunk) else offset == -1
    {
      if id in channels {
        lastRw := Some(id);
        OrigChunkIs(n, pieceLen, perChunk);
        var o := OrigChunk(n, pieceLen, perChunk);
        Bits.QuotientIsNat(n, perChunk);
        KnownSlot(View(), slots, id, o);
        if o >= |channels[id].toCache| {
          return -1;
        }
        var s := channels[id].toCache[o];
        if s != INVALID_CHUNK_ID && n % perChunk in chunks[s].value.bits {
          return SlotOffset(s, ChunkLen()) + n % perChunk * pieceLen;
        }
      }
      offset := -1;
    }
  }

  /** Piece 10 of a new channel of 10 pieces lies in its last chunk of four and is stored; piece 16 of
      one of 16 pieces lies in a chunk that the table of the channel does not have. */
  lemma PastTableExample()
    ensures 10 / 4 < ChunkCount(10, 4) && |NewChannel(10, 3, 4).toCache| == 3
    ensures 16 / 4 >= ChunkCount(16, 4) && |NewChannel(16, 4, 4).toCache| == 4
  {
    assert ChunkCount(10, 4) == 3 && ChunkCount(16, 4) == 4;
  }

  lemma ErasedPieces(d: Disk, s: nat, id: Id)
    requires s < |d.owners| == |d.chunks|
    ensures id in Erased(d, s).channels ==> id in d.channels && Erased(d, s).channels[id].pieces == d.channels[id].pieces
  {
  }

  lemma NoRoom(holes: set<int>, s: int, fileSize: int, chunkLen: nat)
    requires (forall h :: h in holes ==> s <= h) && SlotOffset(s + 1, chunkLen) > fileSize
    ensures forall h :: h in holes ==> SlotOffset(h + 1, chunkLen) > fileSize
  {
    forall h | h in holes ensures SlotOffset(h + 1, chunkLen) > fileSize {
      SlotOffsetMonotone(s + 1, h + 1, chunkLen);
    }
  }

  /** The chunk map of a channel says whether a chunk is cached, and where. */
  lemma KnownSlot(d: Disk, slots: nat, id: Id, o: nat)
    requires Inv(d, slots)
    ensures id !in d.channels ==> Slot(d, id, o).None?
    ensures id in d.channels && o < |d.channels[id].toCache| ==>
      var t := d.channels[id].toCache[o];
      Slot(d, id, o) == if t == INVALID_CHUNK_ID then None else Some(t)
    ensures Slot(d, id, o).Some? ==> 0 <= Slot(d, id, o).value < slots && d.chunks[Slot(d, id, o).value].Some?
  {
    if Slot(d, id, o).Some? {
      assert ChannelOk(d.channels[id], slots);
      OneOwner(d, slots, d.channels[id].toCache[o], id, o);
    }
  }

  /** What the search gives when every slot is used is a used slot. */
  lemma FoundIsUsed(d: Disk, slots: nat, skip: Option<Id>, s: int)
    requires Inv(d, slots)
    requires SlotOfLeast(d.channels, skip, s) || (0 <= s < d.used && d.used == slots)
    ensures 0 <= s < slots && d.chunks[s].Some?
  {
    if 0 <= s < d.used && d.used == slots {
      assert d.holes == {};
      assert SlotOk(d, s);
    } else {
      var id, o :| id in d.channels && o in d.channels[id].cached && 0 <= o < |d.channels[id].toCache| && s == d.channels[id].toCache[o];
      OneOwner(d, slots, s, id, o);
    }
  }

  /** With a used slot there is a channel, and the search for a write gives a used slot. */
  lemma FoundForIsUsed(d: Disk, slots: nat, id: Id, orig: int, s: int)
    requires Inv(d, slots) && d.used > 0
    requires SlotOfLeast(d.channels, Some(id), s)
          || ((forall i :: i in d.channels ==> i == id) &&
              if id in d.channels then SlotOfFarthest(d.channels[id], orig, s) else s == -1)
    ensures 0 <= s < slots && d.chunks[s].Some?
  {
    if SlotOfLeast(d.channels, Some(id), s) {
      FoundIsUsed(d, slots, Some(id), s);
    } else {
      UsedHasChannel(d, slots);
      var o :| o in d.channels[id].cached && 0 <= o < |d.channels[id].toCache| && s == d.channels[id].toCache[o];
      OneOwner(d, slots, s, id, o);
    }
  }

  lemma UsedHasChannel(d: Disk, slots: nat)
    requires Inv(d, slots) && d.used > 0
    ensures exists id :: id in d.channels
  {
    assert d.holes != Range(slots);
    assert d.holes <= Range(slots);
    var s :| s in Range(slots) && s !in d.holes;
    assert SlotOk(d, s);
  }

  /** All slots before the first free one are used, so one more chunk makes the file reach it. */
  lemma FirstHoleReached(d: Disk, slots: nat, s: nat, fileSize: int, chunkLen: nat)
    requires Inv(d, slots) && InFile(d, fileSize, chunkLen) && s in d.holes && forall h :: h in d.holes ==> s <= h
    ensures SlotOffset(s + 1, chunkLen) <= fileSize + chunkLen
  {
    SlotOffsetMonotone(s, s, chunkLen);
    if s > 0 {
      assert SlotOk(d, s - 1);
      assert SlotOffset(s, chunkLen) <= fileSize;
    }
  }
}
