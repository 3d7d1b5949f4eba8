/**
 * The dumb-buffer pool and the software present path of the KMS/DRM backend
 * (src/video/kmsdrm/SDL_kmsdrmdumb.c): two CPU-mapped scan-out buffers built in
 * four kernel steps each with a rollback on failure, the per-frame row copy of
 * the window's software surface into the back buffer followed by a mode-set and
 * a swap of the back/front roles, the window framebuffer surface and teardown.
 */
module KmsDumb {
  import opened Platform
  import opened Kms

  /** Bits per pixel of every dumb buffer (ARGB8888) and the framebuffer depth. */
  const DumbBpp: u32 := 32
  const FbDepth: nat := 24

  /** SDL_PIXELFORMAT_ARGB8888. */
  const PixelFormatArgb8888: bv32 := 0x1636_2004

  // ---------------------------------------------------------------------------
  // The row copy

  /** Where row `i` starts when rows lie `pitch` bytes apart. */
  function RowStart(i: nat, pitch: nat): nat
  {
    i * pitch
  }

  lemma RowStartMonotone(i: nat, j: nat, pitch: nat)
    requires i <= j
    ensures RowStart(i, pitch) <= RowStart(j, pitch)
  {
    assert RowStart(j, pitch) == RowStart(i, pitch) + (j - i) * pitch;
  }

  /** The next row starts one pitch later. */
  lemma RowStartNext(i: nat, pitch: nat)
    ensures RowStart(i + 1, pitch) == RowStart(i, pitch) + pitch
  {
  }

  predicate RowsFit(len: nat, pitch: nat, rowBytes: nat, rows: nat) {
    rows == 0 || RowStart(rows - 1, pitch) + rowBytes <= len
  }

  /** Byte `k` lies in row `i`. */
  predicate InRow(k: int, i: nat, pitch: nat, rowBytes: nat) {
    RowStart(i, pitch) <= k < RowStart(i, pitch) + rowBytes
  }

  /** Byte `k` lies in none of the first `rows` rows. */
  ghost predicate OutsideRows(k: int, pitch: nat, rowBytes: nat, rows: nat) {
    forall i: nat :: i < rows ==> !InRow(k, i, pitch, rowBytes)
  }

  /** `s` after `memcpy(s + off, src + from, n)`; a byte whose source or target lies
      past the end of its buffer is left alone, which never happens where the row
      copy uses it. */
  function Memcpy(s: seq<bv8>, off: nat, src: seq<bv8>, from: nat, n: nat): (r: seq<bv8>)
    ensures |r| == |s|
  {
    seq(|s|, k requires 0 <= k < |s| => if off <= k < off + n && from + (k - off) < |src| then src[from + (k - off)] else s[k])
  }

  /** `dst` after the first `rows` rows of `src` have been copied into it, row `i`
      of `src` starting at `i * srcPitch` and landing at `i * dstPitch`. */
  function CopyRows(dst: seq<bv8>, dstPitch: nat, src: seq<bv8>, srcPitch: nat, rowBytes: nat, rows: nat): (r: seq<bv8>)
    ensures |r| == |dst|
  {
    if rows == 0 then dst
    else Memcpy(CopyRows(dst, dstPitch, src, srcPitch, rowBytes, rows - 1), RowStart(rows - 1, dstPitch), src, RowStart(rows - 1, srcPitch), rowBytes)
  }

  /** `memcpy` puts byte `j` of the copied range in place. */
  lemma MemcpyCopies(s: seq<bv8>, off: nat, src: seq<bv8>, from: nat, n: nat, j: nat)
    requires j < n && off + j < |s| && from + j < |src|
    ensures Memcpy(s, off, src, from, n)[off + j] == src[from + j]
  {
  }

  /** `memcpy` leaves a byte outside the target range alone. */
  lemma MemcpyKeeps(s: seq<bv8>, off: nat, src: seq<bv8>, from: nat, n: nat, k: nat)
    requires k < |s| && !(off <= k < off + n)
    ensures Memcpy(s, off, src, from, n)[k] == s[k]
  {
  }

  /** Row `i` of `rows` lies inside a buffer the rows fit in. */
  lemma RowInside(len: nat, pitch: nat, rowBytes: nat, rows: nat, i: nat)
    requires RowsFit(len, pitch, rowBytes, rows) && i < rows
    ensures RowStart(i, pitch) + rowBytes <= len
  {
    RowStartMonotone(i, rows - 1, pitch);
  }

  /** A byte of an earlier row is not in the last row, when rows do not overlap. */
  lemma EarlierRowNotLast(pitch: nat, rowBytes: nat, rows: nat, i: nat, j: nat)
    requires rowBytes <= pitch && i < rows - 1 && j < rowBytes
    ensures RowStart(i, pitch) + j < RowStart(rows - 1, pitch)
  {
    RowStartMonotone(i + 1, rows - 1, pitch);
    RowStartNext(i, pitch);
  }

  /** Byte `j` of row `i` of the destination holds byte `j` of row `i` of the source,
      as long as rows do not overlap in the destination. */
  lemma {:induction false} CopyRowsCopies(dst: seq<bv8>, dstPitch: nat, src: seq<bv8>, srcPitch: nat, rowBytes: nat, rows: nat, i: nat, j: nat)
    requires RowsFit(|dst|, dstPitch, rowBytes, rows) && RowsFit(|src|, srcPitch, rowBytes, rows)
    requires rowBytes <= dstPitch
    requires i < rows && j < rowBytes
    ensures RowStart(i, dstPitch) + j < |dst| && RowStart(i, srcPitch) + j < |src|
    ensures CopyRows(dst, dstPitch, src, srcPitch, rowBytes, rows)[RowStart(i, dstPitch) + j] == src[RowStart(i, srcPitch) + j]
    decreases rows
  {
    RowInside(|dst|, dstPitch, rowBytes, rows, i);
    RowInside(|src|, srcPitch, rowBytes, rows, i);
    if i < rows - 1 {
      CopyRowsFewer(dst, dstPitch, src, srcPitch, rowBytes, rows, i, j);
      CopyRowsCopies(dst, dstPitch, src, srcPitch, rowBytes, rows - 1, i, j);
    } else {
      CopyRowsLastRow(dst, dstPitch, src, srcPitch, rowBytes, rows, i, j);
    }
  }

  /** Copying the last row, row `i`, puts byte `j` of that source row in place. */
  lemma CopyRowsLastRow(dst: seq<bv8>, dstPitch: nat, src: seq<bv8>, srcPitch: nat, rowBytes: nat, rows: nat, i: nat, j: nat)
    requires i + 1 == rows && j < rowBytes
    requires RowStart(i, dstPitch) + j < |dst| && RowStart(i, srcPitch) + j < |src|
    ensures CopyRows(dst, dstPitch, src, srcPitch, rowBytes, rows)[RowStart(i, dstPitch) + j] == src[RowStart(i, srcPitch) + j]
  {
    var before := CopyRows(dst, dstPitch, src, srcPitch, rowBytes, i);
    assert CopyRows(dst, dstPitch, src, srcPitch, rowBytes, rows)
        == Memcpy(before, RowStart(i, dstPitch), src, RowStart(i, srcPitch), rowBytes);
    MemcpyCopies(before, RowStart(i, dstPitch), src, RowStart(i, srcPitch), rowBytes, j);
  }

  /** The step of `CopyRowsCopies` for a row before the last: the last row leaves
      it alone, and the rows before the last still fit. */
  lemma CopyRowsFewer(dst: seq<bv8>, dstPitch: nat, src: seq<bv8>, srcPitch: nat, rowBytes: nat, rows: nat, i: nat, j: nat)
    requires RowsFit(|dst|, dstPitch, rowBytes, rows) && RowsFit(|src|, srcPitch, rowBytes, rows)
    requires rowBytes <= dstPitch && i < rows - 1 && j < rowBytes
    requires RowStart(i, dstPitch) + j < |dst|
    ensures RowsFit(|dst|, dstPitch, rowBytes, rows - 1) && RowsFit(|src|, srcPitch, rowBytes, rows - 1)
    ensures CopyRows(dst, dstPitch, src, srcPitch, rowBytes, rows)[RowStart(i, dstPitch) + j]
         == CopyRows(dst, dstPitch, src, srcPitch, rowBytes, rows - 1)[RowStart(i, dstPitch) + j]
  {
    EarlierRowNotLast(dstPitch, rowBytes, rows, i, j);
    RowInside(|dst|, dstPitch, rowBytes, rows, rows - 2);
    RowInside(|src|, srcPitch, rowBytes, rows, rows - 2);
    MemcpyKeeps(CopyRows(dst, dstPitch, src, srcPitch, rowBytes, rows - 1), RowStart(rows - 1, dstPitch), src,
      RowStart(rows - 1, srcPitch), rowBytes, RowStart(i, dstPitch) + j);
  }

  /** Every destination byte outside the copied rows keeps its old value. */
  lemma {:induction false} CopyRowsKeepsOthers(dst: seq<bv8>, dstPitch: nat, src: seq<bv8>, srcPitch: nat, rowBytes: nat, rows: nat, k: nat)
    requires k < |dst| && OutsideRows(k, dstPitch, rowBytes, rows)
    ensures CopyRows(dst, dstPitch, src, srcPitch, rowBytes, rows)[k] == dst[k]
    decreases rows
  {
    if rows > 0 {
      assert !InRow(k, rows - 1, dstPitch, rowBytes);
      CopyRowsKeepsOthers(dst, dstPitch, src, srcPitch, rowBytes, rows - 1, k);
    }
  }

  /** The row-copy loop of the software present path: `rows` memcpy calls of
      `rowBytes` bytes each, in place in the mapped buffer `mem`. */
  method CopyRowsInto(mem: array<bv8>, dstPitch: nat, src: array<bv8>, srcPitch: nat, rowBytes: nat, rows: nat)
    requires mem != src
    requires RowsFit(mem.Length, dstPitch, rowBytes, rows) && RowsFit(src.Length, srcPitch, rowBytes, rows)
    modifies mem
    ensures mem[..] == CopyRows(old(mem[..]), dstPitch, src[..], srcPitch, rowBytes, rows)
  {
    ghost var pixels := src[..];
    for i := 0 to rows
      invariant src[..] == pixels
      invariant mem[..] == CopyRows(old(mem[..]), dstPitch, pixels, srcPitch, rowBytes, i)
    {
      RowStartMonotone(i, rows - 1, dstPitch);
      RowStartMonotone(i, rows - 1, srcPitch);
      var rowDb, rowFb := i * dstPitch, i * srcPitch;
      ghost var before := mem[..];
      forall j | 0 <= j < rowBytes {
        mem[rowDb + j] := src[rowFb + j];
      }
      assert mem[..] == Memcpy(before, rowDb, pixels, rowFb, rowBytes) by {
        forall k | 0 <= k < mem.Length
          ensures mem[k] == Memcpy(before, rowDb, pixels, rowFb, rowBytes)[k]
        {
        }
      }
      assert CopyRows(old(mem[..]), dstPitch, pixels, srcPitch, rowBytes, i + 1)
          == Memcpy(CopyRows(old(mem[..]), dstPitch, pixels, srcPitch, rowBytes, i), rowDb, pixels, rowFb, rowBytes);
    }
  }

  // ---------------------------------------------------------------------------
  // Building the dumb buffers

  /** The oracle replies for one slot: DRM_IOCTL_MODE_CREATE_DUMB, drmModeAddFB (the
      framebuffer id, None when it returned non-zero), DRM_IOCTL_MODE_MAP_DUMB (the
      mmap offset) and mmap. */
  datatype SlotReplies = SlotReplies(created: Option<DumbCreated>, added: Option<int>, mapOffset: Option<nat>, mapped: MapPtr)

  /** What building one slot did: the record as it is left, the calls made and whether
      a step failed (which jumps to the rollback). */
  datatype SlotStep = SlotStep(buffer: DumbBuffer, calls: seq<Call>, failed: bool)

  /** One iteration of the creation loop (SDL_kmsdrmdumb.c lines 58-90). A failed
      step leaves the record as far as it got: `buf_id = -1` after a failed
      create, the create handle set to -1 (all ones in its unsigned field) after a
      failed drmModeAddFB, and the mapping stored whatever mmap returned. */
  function BuildSlot(fd: int, mode: Mode, b: DumbBuffer, r: SlotReplies): (s: SlotStep)
    ensures s.failed <==> !(r.created.Some? && r.added.Some? && r.mapOffset.Some? && r.mapped != MapFailed)
    ensures !s.failed ==> s.buffer.handle == s.buffer.destroyHandle == s.buffer.mapHandle == r.created.value.handle
                          && s.buffer.bufId == r.added.value && s.buffer.mapping == r.mapped
                          && s.buffer.pitch == r.created.value.pitch && s.buffer.size == r.created.value.size
                          && s.buffer.offset == r.mapOffset.value
    ensures |s.calls| <= 4 && ReleasesNothing(s.calls)
  {
    var b1 := b.(width := mode.hdisplay, height := mode.vdisplay, bpp := DumbBpp);
    var create := CreateDumb(fd, b1.width, b1.height, b1.bpp, r.created);
    if r.created.None? then SlotStep(b1.(bufId := -1), [create], true)
    else
      var c := r.created.value;
      var b2 := b1.(handle := c.handle, pitch := c.pitch, size := c.size, destroyHandle := c.handle);
      var addFb := AddFB(fd, b2.width, b2.height, FbDepth, DumbBpp, b2.pitch, b2.handle, r.added);
      if r.added.None? then SlotStep(b2.(handle := U32MinusOne), [create, addFb], true)
      else
        var b3 := b2.(bufId := r.added.value, mapHandle := b2.handle);
        var mapDumb := MapDumb(fd, b3.mapHandle, r.mapOffset);
        if r.mapOffset.None? then SlotStep(b3, [create, addFb, mapDumb], true)
        else
          var b4 := b3.(offset := r.mapOffset.value);
          var mmap := Mmap(fd, b4.size, b4.offset, r.mapped);
          SlotStep(b4.(mapping := r.mapped), [create, addFb, mapDumb, mmap], r.mapped == MapFailed)
  }

  /** Every slot is requested at the mode's visible size and 32 bits per pixel, and
      its framebuffer is added at depth 24, 32 bits per pixel, with the pitch and
      handle the kernel returned. The numbers are written out here, not taken from
      `DumbBpp` and `FbDepth`, so that the lemma also pins what those constants are. */
  lemma SlotRequests(fd: int, mode: Mode, b: DumbBuffer, r: SlotReplies)
    ensures var s := BuildSlot(fd, mode, b, r);
      |s.calls| >= 1 && s.calls[0] == CreateDumb(fd, mode.hdisplay, mode.vdisplay, 32, r.created)
      && (r.created.Some? ==> |s.calls| >= 2 && s.calls[1] == AddFB(fd, mode.hdisplay, mode.vdisplay, 24, 32,
                                                                    r.created.value.pitch, r.created.value.handle, r.added))
  {
  }

  /** Where the creation loop stands: the slot records, the calls made so far and
      whether a step failed. */
  datatype BuildState = BuildState(slots: seq<DumbBuffer>, calls: seq<Call>, failed: bool)

  /** The creation loop over the first `n` slots; it stops at the first failure. */
  function Build(fd: int, mode: Mode, slots: seq<DumbBuffer>, replies: seq<SlotReplies>, n: nat): (st: BuildState)
    requires n <= |slots| == |replies|
    ensures |st.slots| == |slots|
    ensures ReleasesNothing(st.calls)
    decreases n
  {
    if n == 0 then BuildState(slots, [], false)
    else
      var prev := Build(fd, mode, slots, replies, n - 1);
      if prev.failed then prev
      else
        var step := BuildSlot(fd, mode, prev.slots[n - 1], replies[n - 1]);
        ReleasesNothingAppend(prev.calls, step.calls);
        BuildState(prev.slots[n - 1 := step.buffer], prev.calls + step.calls, step.failed)
  }


  // ---------------------------------------------------------------------------
  // Releasing the dumb buffers

  /** The calls the rollback (lines 99-113) and the teardown (lines 200-213) make for
      one slot: RmFB when `buf_id > 0`, DESTROY_DUMB with the destroy request's handle
      when the create request's handle is non-zero, and munmap when `map` is not NULL. */
  function SlotReleaseCalls(fd: int, b: DumbBuffer): seq<Call> {
    When(b.bufId > 0, RmFB(fd, b.bufId))
    + When(b.handle > 0, DestroyDumb(fd, b.destroyHandle))
    + When(b.mapping != Null, Unmap(b.mapping, b.size))
  }

  /** The release calls for every slot, in slot order. */
  function ReleaseSlots(fd: int, slots: seq<DumbBuffer>): seq<Call>
    decreases |slots|
  {
    if slots == [] then [] else ReleaseSlots(fd, slots[..|slots| - 1]) + SlotReleaseCalls(fd, slots[|slots| - 1])
  }

  /** The kernel objects and the mapping a slot record points at, as its release sees them. */
  function Held(b: DumbBuffer): set<Res> {
    (if b.bufId > 0 then {Fb(b.bufId)} else {})
    + (if b.handle > 0 then {Dumb(b.destroyHandle)} else {})
    + (if b.mapping.Mapped? then {Mapping(b.mapping.mem)} else {})
  }

  function HeldAll(slots: seq<DumbBuffer>): set<Res>
    decreases |slots|
  {
    if slots == [] then {} else HeldAll(slots[..|slots| - 1]) + Held(slots[|slots| - 1])
  }

  /** Releasing one slot gives back exactly what the record points at. */
  lemma SlotReleaseReleasesHeld(fd: int, b: DumbBuffer)
    ensures ReleasedAll(SlotReleaseCalls(fd, b)) == Held(b)
  {
    var rm := When(b.bufId > 0, RmFB(fd, b.bufId));
    var destroy := When(b.handle > 0, DestroyDumb(fd, b.destroyHandle));
    var unmap := When(b.mapping != Null, Unmap(b.mapping, b.size));
    WhenReleases(b.bufId > 0, RmFB(fd, b.bufId));
    WhenReleases(b.handle > 0, DestroyDumb(fd, b.destroyHandle));
    WhenReleases(b.mapping != Null, Unmap(b.mapping, b.size));
    assert ReleasedAll(rm) == if b.bufId > 0 then {Fb(b.bufId)} else {};
    assert ReleasedAll(destroy) == if b.handle > 0 then {Dumb(b.destroyHandle)} else {};
    assert ReleasedAll(unmap) == if b.mapping.Mapped? then {Mapping(b.mapping.mem)} else {};
    ReleasedAllAppend(rm, destroy);
    ReleasedAllAppend(rm + destroy, unmap);
  }

  /** Releasing one slot acquires nothing. */
  lemma SlotReleaseAcquiresNothing(fd: int, b: DumbBuffer)
    ensures AcquiresNothing(SlotReleaseCalls(fd, b))
  {
    var rm := When(b.bufId > 0, RmFB(fd, b.bufId));
    var destroy := When(b.handle > 0, DestroyDumb(fd, b.destroyHandle));
    var unmap := When(b.mapping != Null, Unmap(b.mapping, b.size));
    WhenReleases(b.bufId > 0, RmFB(fd, b.bufId));
    WhenReleases(b.handle > 0, DestroyDumb(fd, b.destroyHandle));
    WhenReleases(b.mapping != Null, Unmap(b.mapping, b.size));
    AcquiresNothingAppend(rm, destroy);
    AcquiresNothingAppend(rm + destroy, unmap);
  }

  /** Releasing every slot gives back exactly what the records point at. */
  lemma {:induction false} ReleaseSlotsReleasesHeld(fd: int, slots: seq<DumbBuffer>)
    ensures ReleasedAll(ReleaseSlots(fd, slots)) == HeldAll(slots)
    decreases |slots|
  {
    if slots != [] {
      var front := slots[..|slots| - 1];
      var last := slots[|slots| - 1];
      ReleaseSlotsReleasesHeld(fd, front);
      SlotReleaseReleasesHeld(fd, last);
      ReleasedAllAppend(ReleaseSlots(fd, front), SlotReleaseCalls(fd, last));
    }
  }

  /** Releasing every slot acquires nothing. */
  lemma {:induction false} ReleaseSlotsAcquiresNothing(fd: int, slots: seq<DumbBuffer>)
    ensures AcquiresNothing(ReleaseSlots(fd, slots))
    decreases |slots|
  {
    if slots != [] {
      var front := slots[..|slots| - 1];
      var last := slots[|slots| - 1];
      ReleaseSlotsAcquiresNothing(fd, front);
      SlotReleaseAcquiresNothing(fd, last);
      AcquiresNothingAppend(ReleaseSlots(fd, front), SlotReleaseCalls(fd, last));
    }
  }
  /** The kernel hands out non-zero dumb buffer handles and positive framebuffer ids. */
  predicate KernelIdsOk(r: SlotReplies) {
    (r.created.Some? ==> r.created.value.handle > 0) && (r.added.Some? ==> r.added.value > 0)
  }

  predicate KernelIds(replies: seq<SlotReplies>) {
    forall i :: 0 <= i < |replies| ==> KernelIdsOk(replies[i])
  }

  // ---------------------------------------------------------------------------
  // What building acquires

  /** Building a slot acquires the dumb buffer once it is created, the framebuffer
      once it is added and the mapping once mmap returns one: nothing else. */
  lemma SlotAcquires(fd: int, mode: Mode, b: DumbBuffer, r: SlotReplies)
    ensures AcquiredAll(BuildSlot(fd, mode, b, r).calls) ==
      (if r.created.Some? then {Dumb(r.created.value.handle)} else {})
      + (if r.created.Some? && r.added.Some? then {Fb(r.added.value)} else {})
      + (if r.created.Some? && r.added.Some? && r.mapOffset.Some? && r.mapped.Mapped? then {Mapping(r.mapped.mem)} else {})
  {
    var cs := BuildSlot(fd, mode, b, r).calls;
    AcquiredAllShort(cs);
  }

  /** What a slot build acquired, the slot record afterwards points at; once the
      build succeeded, it points at exactly that. */
  lemma SlotHoldsWhatItAcquired(fd: int, mode: Mode, b: DumbBuffer, r: SlotReplies)
    requires KernelIdsOk(r)
    ensures AcquiredAll(BuildSlot(fd, mode, b, r).calls) <= Held(BuildSlot(fd, mode, b, r).buffer)
    ensures !BuildSlot(fd, mode, b, r).failed ==> AcquiredAll(BuildSlot(fd, mode, b, r).calls) == Held(BuildSlot(fd, mode, b, r).buffer)
  {
    SlotAcquires(fd, mode, b, r);
  }

  /** Slots the creation loop has not reached are as they were. */
  lemma {:induction false} BuildUntouched(fd: int, mode: Mode, slots: seq<DumbBuffer>, replies: seq<SlotReplies>, n: nat, i: nat)
    requires n <= i < |slots| == |replies|
    ensures Build(fd, mode, slots, replies, n).slots[i] == slots[i]
    decreases n
  {
    if n > 0 {
      BuildUntouched(fd, mode, slots, replies, n - 1, i);
    }
  }

  /** Once a step has failed, the loop does nothing more. */
  lemma {:induction false} BuildStaysFailed(fd: int, mode: Mode, slots: seq<DumbBuffer>, replies: seq<SlotReplies>, m: nat, n: nat)
    requires m <= n <= |slots| == |replies|
    requires Build(fd, mode, slots, replies, m).failed
    ensures Build(fd, mode, slots, replies, n) == Build(fd, mode, slots, replies, m)
    decreases n
  {
    if m < n {
      BuildStaysFailed(fd, mode, slots, replies, m, n - 1);
    }
  }

  /** The slots up to `n` after slot `n - 1` is replaced by `b`. */
  lemma HeldAllPrefix(slots: seq<DumbBuffer>, n: nat, b: DumbBuffer)
    requires 0 < n <= |slots|
    ensures HeldAll(slots[..n]) == HeldAll(slots[..n - 1]) + Held(slots[n - 1])
    ensures HeldAll(slots[n - 1 := b][..n]) == HeldAll(slots[..n - 1]) + Held(b)
  {
    assert slots[..n][..n - 1] == slots[..n - 1];
    assert slots[n - 1 := b][..n][..n - 1] == slots[..n - 1];
  }

  /** One more slot built on top of a loop that held what it acquired still holds it. */
  lemma StepHolds(calls: seq<Call>, slots: seq<DumbBuffer>, n: nat, stepCalls: seq<Call>, b: DumbBuffer)
    requires 0 < n <= |slots|
    requires AcquiredAll(calls) <= HeldAll(slots[..n - 1]) && AcquiredAll(stepCalls) <= Held(b)
    ensures AcquiredAll(calls + stepCalls) <= HeldAll(slots[n - 1 := b][..n])
  {
    AcquiredAllAppend(calls, stepCalls);
    HeldAllPrefix(slots, n, b);
  }

  /** A step after a failure changes nothing, and the slots still hold what was acquired. */
  lemma BuildHoldsAfterFailure(fd: int, mode: Mode, slots: seq<DumbBuffer>, replies: seq<SlotReplies>, n: nat)
    requires 0 < n <= |slots| == |replies|
    requires Build(fd, mode, slots, replies, n - 1).failed
    requires AcquiredAll(Build(fd, mode, slots, replies, n - 1).calls) <= HeldAll(Build(fd, mode, slots, replies, n - 1).slots[..n - 1])
    ensures AcquiredAll(Build(fd, mode, slots, replies, n).calls) <= HeldAll(Build(fd, mode, slots, replies, n).slots[..n])
  {
    var prev := Build(fd, mode, slots, replies, n - 1);
    assert Build(fd, mode, slots, replies, n) == prev;
    HeldAllPrefix(prev.slots, n, prev.slots[n - 1]);
  }

  /** A successful or failed slot build keeps the loop holding what it acquired. */
  lemma BuildHoldsAfterStep(fd: int, mode: Mode, slots: seq<DumbBuffer>, replies: seq<SlotReplies>, n: nat)
    requires 0 < n <= |slots| == |replies| && KernelIdsOk(replies[n - 1])
    requires !Build(fd, mode, slots, replies, n - 1).failed
    requires AcquiredAll(Build(fd, mode, slots, replies, n - 1).calls) <= HeldAll(Build(fd, mode, slots, replies, n - 1).slots[..n - 1])
    ensures AcquiredAll(Build(fd, mode, slots, replies, n).calls) <= HeldAll(Build(fd, mode, slots, replies, n).slots[..n])
  {
    var prev := Build(fd, mode, slots, replies, n - 1);
    var step := BuildSlot(fd, mode, prev.slots[n - 1], replies[n - 1]);
    SlotHoldsWhatItAcquired(fd, mode, prev.slots[n - 1], replies[n - 1]);
    StepHolds(prev.calls, prev.slots, n, step.calls, step.buffer);
  }

  /** The slots the loop went through point at everything it acquired. */
  lemma {:induction false} BuildHoldsWhatItAcquired(fd: int, mode: Mode, slots: seq<DumbBuffer>, replies: seq<SlotReplies>, n: nat)
    requires n <= |slots| == |replies| && KernelIds(replies)
    ensures AcquiredAll(Build(fd, mode, slots, replies, n).calls) <= HeldAll(Build(fd, mode, slots, replies, n).slots[..n])
    decreases n
  {
    if n > 0 {
      BuildHoldsWhatItAcquired(fd, mode, slots, replies, n - 1);
      if Build(fd, mode, slots, replies, n - 1).failed {
        BuildHoldsAfterFailure(fd, mode, slots, replies, n);
      } else {
        assert KernelIdsOk(replies[n - 1]);
        BuildHoldsAfterStep(fd, mode, slots, replies, n);
      }
    }
  }

  /** After a loop in which no step failed, the slots it went through point at
      exactly what it acquired. */
  lemma {:induction false} BuildHoldsExactly(fd: int, mode: Mode, slots: seq<DumbBuffer>, replies: seq<SlotReplies>, n: nat)
    requires n <= |slots| == |replies| && KernelIds(replies)
    requires !Build(fd, mode, slots, replies, n).failed
    ensures AcquiredAll(Build(fd, mode, slots, replies, n).calls) == HeldAll(Build(fd, mode, slots, replies, n).slots[..n])
    decreases n
  {
    if n > 0 {
      var prev := Build(fd, mode, slots, replies, n - 1);
      BuildHoldsExactly(fd, mode, slots, replies, n - 1);
      var step := BuildSlot(fd, mode, prev.slots[n - 1], replies[n - 1]);
      assert KernelIdsOk(replies[n - 1]);
      SlotHoldsWhatItAcquired(fd, mode, prev.slots[n - 1], replies[n - 1]);
      AcquiredAllAppend(prev.calls, step.calls);
      HeldAllPrefix(prev.slots, n, step.buffer);
    }
  }

  /** After a build in which no step failed, every slot holds what its four steps
      produced: the created handle (also in the map and destroy requests), the
      framebuffer id, the mmap offset and a mapping that is not MAP_FAILED. */
  lemma {:induction false} BuildSucceeded(fd: int, mode: Mode, slots: seq<DumbBuffer>, replies: seq<SlotReplies>, n: nat, i: nat)
    requires n <= |slots| == |replies| && !Build(fd, mode, slots, replies, n).failed && i < n
    ensures Build(fd, mode, slots, replies, n).slots[i] == BuildSlot(fd, mode, slots[i], replies[i]).buffer
    ensures !BuildSlot(fd, mode, slots[i], replies[i]).failed
    decreases n
  {
    var prev := Build(fd, mode, slots, replies, n - 1);
    assert !prev.failed;
    if i < n - 1 {
      BuildSucceeded(fd, mode, slots, replies, n - 1, i);
    } else {
      BuildUntouched(fd, mode, slots, replies, n - 1, i);
    }
  }

  // ---------------------------------------------------------------------------
  // KMSDRM_Dumb_CreateDumbBuffers

  /** What the creation returns and leaves behind: its return value, the device
      descriptor, the slot records, the calls it made and whether the buffers are
      ready (roles assigned and `dumb_init` set). */
  datatype CreateOutcome = CreateOutcome(ret: int, fd: int, slots: seq<DumbBuffer>, calls: seq<Call>, ready: bool)

  /** The calls made before the slots are built: open when there is no descriptor
      yet, then the dumb-buffer capability query. */
  function ProbeCalls(fd: int, newFd: int, cap: Option<nat>): seq<Call> {
    if fd < 0 then [Open(newFd), GetDumbCap(newFd, cap)] else [GetDumbCap(fd, cap)]
  }

  /** The capability query succeeded and reported dumb buffer support. */
  predicate HasDumb(cap: Option<nat>) {
    cap.Some? && cap.value != 0
  }

  /** KMSDRM_Dumb_CreateDumbBuffers (lines 34-116), given the replies of open,
      drmGetCap and the four steps of every slot. */
  function CreateDumbBuffersSpec(fd: int, newFd: int, cap: Option<nat>, mode: Mode, slots: seq<DumbBuffer>, replies: seq<SlotReplies>): (o: CreateOutcome)
    requires |slots| == |replies|
    ensures |o.slots| == |slots|
    ensures o.fd == (if fd < 0 then newFd else fd)
  {
    var fd' := if fd < 0 then newFd else fd;
    var probe := ProbeCalls(fd, newFd, cap);
    if !HasDumb(cap) then CreateOutcome(-1, fd', slots, probe, false)
    else
      var st := Build(fd', mode, slots, replies, |slots|);
      if st.failed then CreateOutcome(-1, fd', st.slots, probe + st.calls + ReleaseSlots(fd', st.slots), false)
      else CreateOutcome(0, fd', st.slots, probe + st.calls, true)
  }

  /** Every step of every slot succeeded. */
  ghost predicate AllStepsSucceed(replies: seq<SlotReplies>) {
    forall i :: 0 <= i < |replies| ==>
      replies[i].created.Some? && replies[i].added.Some? && replies[i].mapOffset.Some? && replies[i].mapped != MapFailed
  }

  /** The creation succeeds exactly when the capability is there and every step of
      every slot succeeds; it returns 0 then and -1 otherwise. */
  lemma CreateSucceedsIff(fd: int, newFd: int, cap: Option<nat>, mode: Mode, slots: seq<DumbBuffer>, replies: seq<SlotReplies>)
    requires |slots| == |replies|
    ensures CreateDumbBuffersSpec(fd, newFd, cap, mode, slots, replies).ret == 0
        <==> HasDumb(cap) && AllStepsSucceed(replies)
    ensures CreateDumbBuffersSpec(fd, newFd, cap, mode, slots, replies).ret in {0, -1}
  {
    var fd' := if fd < 0 then newFd else fd;
    if HasDumb(cap) {
      var n := |slots|;
      if !Build(fd', mode, slots, replies, n).failed {
        forall i | 0 <= i < n
          ensures replies[i].created.Some? && replies[i].added.Some? && replies[i].mapOffset.Some? && replies[i].mapped != MapFailed
        {
          BuildSucceeded(fd', mode, slots, replies, n, i);
        }
      } else {
        BuildFailsAtSomeSlot(fd', mode, slots, replies, n);
      }
    }
  }

  /** Without dumb buffer support the creation stops after the probe: it fails,
      leaves the slot records as they were and makes no other call; and in every
      case the window is marked ready exactly when the creation succeeds. */
  lemma CreateWithoutCapability(fd: int, newFd: int, cap: Option<nat>, mode: Mode, slots: seq<DumbBuffer>, replies: seq<SlotReplies>)
    requires |slots| == |replies|
    ensures var o := CreateDumbBuffersSpec(fd, newFd, cap, mode, slots, replies);
      (!HasDumb(cap) ==> o.ret == -1 && o.slots == slots && o.calls == ProbeCalls(fd, newFd, cap))
      && (o.ready <==> o.ret == 0)
  {
  }

  /** A failed loop failed at a slot whose replies report a failure. */
  lemma {:induction false} BuildFailsAtSomeSlot(fd: int, mode: Mode, slots: seq<DumbBuffer>, replies: seq<SlotReplies>, n: nat)
    requires n <= |slots| == |replies| && Build(fd, mode, slots, replies, n).failed
    ensures exists i :: 0 <= i < n && !(replies[i].created.Some? && replies[i].added.Some? && replies[i].mapOffset.Some? && replies[i].mapped != MapFailed)
    decreases n
  {
    var prev := Build(fd, mode, slots, replies, n - 1);
    if prev.failed {
      BuildFailsAtSomeSlot(fd, mode, slots, replies, n - 1);
    } else {
      assert !(replies[n - 1].created.Some? && replies[n - 1].added.Some? && replies[n - 1].mapOffset.Some? && replies[n - 1].mapped != MapFailed);
    }
  }

  /** The probe releases nothing and acquires at most the descriptor it opened. */
  lemma ProbeAcquires(fd: int, newFd: int, cap: Option<nat>)
    ensures ReleasesNothing(ProbeCalls(fd, newFd, cap))
    ensures AcquiredAll(ProbeCalls(fd, newFd, cap)) == if fd < 0 && newFd >= 0 then {Fd(newFd)} else {}
  {
    var p := ProbeCalls(fd, newFd, cap);
    if fd < 0 {
      assert p == [Open(newFd)] + [GetDumbCap(newFd, cap)];
      AcquiredAllOne(Open(newFd));
      AcquiredAllOne(GetDumbCap(newFd, cap));
      AcquiredAllAppend([Open(newFd)], [GetDumbCap(newFd, cap)]);
    } else {
      AcquiredAllOne(GetDumbCap(fd, cap));
    }
  }

  /** A creation that got past the capability check but failed leaves the resources
      it found, plus the descriptor it may have opened, minus everything the slot
      records point at when the rollback runs. */
  lemma CreateFailureReleasesHeld(live: set<Res>, fd: int, newFd: int, cap: Option<nat>, mode: Mode, slots: seq<DumbBuffer>, replies: seq<SlotReplies>)
    requires |slots| == |replies| && KernelIds(replies) && HasDumb(cap)
    requires CreateDumbBuffersSpec(fd, newFd, cap, mode, slots, replies).ret == -1
    ensures var o := CreateDumbBuffersSpec(fd, newFd, cap, mode, slots, replies);
      ApplyAll(live, o.calls) == live + AcquiredAll(ProbeCalls(fd, newFd, cap)) - HeldAll(o.slots)
  {
    var fd' := if fd < 0 then newFd else fd;
    var probe := ProbeCalls(fd, newFd, cap);
    var st := Build(fd', mode, slots, replies, |slots|);
    var rollback := ReleaseSlots(fd', st.slots);
    ProbeAcquires(fd, newFd, cap);
    ReleasesNothingAppend(probe, st.calls);
    AcquiringLog(live, probe + st.calls);
    AcquiredAllAppend(probe, st.calls);
    BuildHoldsWhatItAcquired(fd', mode, slots, replies, |slots|);
    assert st.slots[..|slots|] == st.slots;
    ReleaseSlotsAcquiresNothing(fd', st.slots);
    ReleasingLog(live + AcquiredAll(probe + st.calls), rollback);
    ReleaseSlotsReleasesHeld(fd', st.slots);
    ApplyAllAppend(live, probe + st.calls, rollback);
  }

  /** A failed creation leaks nothing: what is live afterwards was live before or is
      the device descriptor, which stays open. */
  lemma CreateFailureLeaksNothing(live: set<Res>, fd: int, newFd: int, cap: Option<nat>, mode: Mode, slots: seq<DumbBuffer>, replies: seq<SlotReplies>)
    requires |slots| == |replies| && KernelIds(replies)
    requires CreateDumbBuffersSpec(fd, newFd, cap, mode, slots, replies).ret == -1
    ensures var o := CreateDumbBuffersSpec(fd, newFd, cap, mode, slots, replies);
      ApplyAll(live, o.calls) <= live + {Fd(o.fd)}
  {
    ProbeAcquires(fd, newFd, cap);
    if HasDumb(cap) {
      CreateFailureReleasesHeld(live, fd, newFd, cap, mode, slots, replies);
    } else {
      AcquiringLog(live, ProbeCalls(fd, newFd, cap));
    }
  }

  /** A successful creation is the probe followed by a build in which no step failed. */
  lemma CreateSuccessShape(fd: int, newFd: int, cap: Option<nat>, mode: Mode, slots: seq<DumbBuffer>, replies: seq<SlotReplies>)
    requires |slots| == |replies|
    requires CreateDumbBuffersSpec(fd, newFd, cap, mode, slots, replies).ret == 0
    ensures var o := CreateDumbBuffersSpec(fd, newFd, cap, mode, slots, replies);
      var st := Build(o.fd, mode, slots, replies, |slots|);
      !st.failed && o.slots == st.slots && o.calls == ProbeCalls(fd, newFd, cap) + st.calls
  {
  }

  /** A successful creation adds exactly the probe's descriptor and what the slot
      records point at. */
  lemma CreateSuccessHolds(live: set<Res>, fd: int, newFd: int, cap: Option<nat>, mode: Mode, slots: seq<DumbBuffer>, replies: seq<SlotReplies>)
    requires |slots| == |replies| && KernelIds(replies)
    requires CreateDumbBuffersSpec(fd, newFd, cap, mode, slots, replies).ret == 0
    ensures var o := CreateDumbBuffersSpec(fd, newFd, cap, mode, slots, replies);
      ApplyAll(live, o.calls) == live + AcquiredAll(ProbeCalls(fd, newFd, cap)) + HeldAll(o.slots)
  {
    var fd' := if fd < 0 then newFd else fd;
    var probe := ProbeCalls(fd, newFd, cap);
    var st := Build(fd', mode, slots, replies, |slots|);
    CreateSuccessShape(fd, newFd, cap, mode, slots, replies);
    ProbeAcquires(fd, newFd, cap);
    ReleasesNothingAppend(probe, st.calls);
    AcquiringLog(live, probe + st.calls);
    AcquiredAllAppend(probe, st.calls);
    BuildHoldsExactly(fd', mode, slots, replies, |slots|);
    assert st.slots[..|slots|] == st.slots;
  }

  /** After a successful creation every slot holds the result of its four steps, with
      a mapping that is not MAP_FAILED. */
  lemma CreateSuccessSlots(fd: int, newFd: int, cap: Option<nat>, mode: Mode, slots: seq<DumbBuffer>, replies: seq<SlotReplies>)
    requires |slots| == |replies|
    requires CreateDumbBuffersSpec(fd, newFd, cap, mode, slots, replies).ret == 0
    ensures var o := CreateDumbBuffersSpec(fd, newFd, cap, mode, slots, replies);
      forall i :: 0 <= i < |slots| ==> o.slots[i] == BuildSlot(o.fd, mode, slots[i], replies[i]).buffer && o.slots[i].mapping != MapFailed
  {
    var fd' := if fd < 0 then newFd else fd;
    var st := Build(fd', mode, slots, replies, |slots|);
    CreateSuccessShape(fd, newFd, cap, mode, slots, replies);
    forall i | 0 <= i < |slots|
      ensures st.slots[i] == BuildSlot(fd', mode, slots[i], replies[i]).buffer && st.slots[i].mapping != MapFailed
    {
      BuildSucceeded(fd', mode, slots, replies, |slots|, i);
    }
  }

  // ---------------------------------------------------------------------------
  // KMSDRM_Dumb_DestroySurfaces

  /** A slot record after the teardown (lines 214-216): `buf_id = -1`, the create
      handle set to -1 (all ones in its unsigned field) and `map = MAP_FAILED`. The
      destroy request keeps its handle. */
  function ResetSlot(b: DumbBuffer): (r: DumbBuffer)
    ensures r.bufId <= 0 && r.handle > 0 && r.mapping == MapFailed
    ensures r.destroyHandle == b.destroyHandle && r.size == b.size
  {
    b.(bufId := -1, handle := U32MinusOne, mapping := MapFailed)
  }

  function ResetAll(slots: seq<DumbBuffer>): (r: seq<DumbBuffer>)
    ensures |r| == |slots| && forall i :: 0 <= i < |slots| ==> r[i] == ResetSlot(slots[i])
  {
    seq(|slots|, i requires 0 <= i < |slots| => ResetSlot(slots[i]))
  }

  /** The calls of the teardown: every slot released, then the descriptor closed. */
  function DestroyCalls(fd: int, slots: seq<DumbBuffer>): seq<Call> {
    ReleaseSlots(fd, slots) + [Close(fd)]
  }

  /** The teardown gives back everything the slot records point at and the descriptor. */
  lemma DestroyReleases(live: set<Res>, fd: int, slots: seq<DumbBuffer>)
    ensures ApplyAll(live, DestroyCalls(fd, slots)) == live - HeldAll(slots) - {Fd(fd)}
  {
    ReleaseSlotsAcquiresNothing(fd, slots);
    ReleaseSlotsReleasesHeld(fd, slots);
    ReleasingLog(live, ReleaseSlots(fd, slots));
    ApplyAllAppend(live, ReleaseSlots(fd, slots), [Close(fd)]);
    assert ApplyAll(live - HeldAll(slots), [Close(fd)]) == live - HeldAll(slots) - {Fd(fd)} by {
      assert [Close(fd)][..0] == [];
    }
  }

  /** Creating the buffers and tearing them down returns to the resources there were,
      without the device descriptor and without whatever the slot records pointed at. */
  lemma CreateThenDestroy(live: set<Res>, fd: int, newFd: int, cap: Option<nat>, mode: Mode, slots: seq<DumbBuffer>, replies: seq<SlotReplies>)
    requires |slots| == |replies| && KernelIds(replies)
    requires CreateDumbBuffersSpec(fd, newFd, cap, mode, slots, replies).ret == 0
    ensures var o := CreateDumbBuffersSpec(fd, newFd, cap, mode, slots, replies);
      ApplyAll(live, o.calls + DestroyCalls(o.fd, o.slots)) == live - HeldAll(o.slots) - {Fd(o.fd)}
  {
    var o := CreateDumbBuffersSpec(fd, newFd, cap, mode, slots, replies);
    CreateSuccessHolds(live, fd, newFd, cap, mode, slots, replies);
    ProbeAcquires(fd, newFd, cap);
    ApplyAllAppend(live, o.calls, DestroyCalls(o.fd, o.slots));
    DestroyReleases(ApplyAll(live, o.calls), o.fd, o.slots);
  }

  /** A reset slot no longer points at a framebuffer or a mapping, but its create
      handle passes the `> 0` guard: a later release of it destroys the dumb buffer
      handle of the destroy request again and unmaps MAP_FAILED. */
  lemma ResetSlotStale(fd: int, b: DumbBuffer)
    ensures Held(ResetSlot(b)) == {Dumb(b.destroyHandle)}
    ensures SlotReleaseCalls(fd, ResetSlot(b)) == [DestroyDumb(fd, b.destroyHandle), Unmap(MapFailed, b.size)]
  {
  }

  /** A zero-filled slot record points at nothing, and its release makes no call. */
  lemma ZeroSlotHoldsNothing(fd: int)
    ensures Held(ZeroBuffer) == {} && SlotReleaseCalls(fd, ZeroBuffer) == []
  {
  }

  /** After a teardown, which closes the descriptor and leaves -1 in its place, a
      creation reopens the node; if its first slot then fails to be created, the
      rollback destroys the stale handle of every slot on the new descriptor. */
  lemma RecreateAfterTeardownFailsStale(newFd: int, cap: Option<nat>, mode: Mode, torn: seq<DumbBuffer>, replies: seq<SlotReplies>)
    requires |torn| == |replies| == 2 && HasDumb(cap)
    requires replies[0].created.None?
    ensures var o := CreateDumbBuffersSpec(-1, newFd, cap, mode, ResetAll(torn), replies);
      o.ret == -1 && o.fd == newFd
      && o.calls == [Open(newFd), GetDumbCap(newFd, cap), CreateDumb(newFd, mode.hdisplay, mode.vdisplay, DumbBpp, None),
                     DestroyDumb(newFd, torn[0].destroyHandle), Unmap(MapFailed, torn[0].size),
                     DestroyDumb(newFd, torn[1].destroyHandle), Unmap(MapFailed, torn[1].size)]
  {
    var slots := ResetAll(torn);
    var st := Build(newFd, mode, slots, replies, 2);
    var step := BuildSlot(newFd, mode, slots[0], replies[0]);
    assert Build(newFd, mode, slots, replies, 1) == BuildState(slots[0 := step.buffer], [CreateDumb(newFd, mode.hdisplay, mode.vdisplay, DumbBpp, None)], true);
    BuildStaysFailed(newFd, mode, slots, replies, 1, 2);
    assert st.slots == [step.buffer, slots[1]];
    assert st.slots[..1] == [step.buffer] && [step.buffer][..0] == [];
    ResetSlotStale(newFd, torn[1]);
    assert SlotReleaseCalls(newFd, step.buffer) == [DestroyDumb(newFd, torn[0].destroyHandle), Unmap(MapFailed, torn[0].size)];
    assert ReleaseSlots(newFd, [step.buffer]) == [] + SlotReleaseCalls(newFd, step.buffer);
    assert ReleaseSlots(newFd, st.slots) == ReleaseSlots(newFd, [step.buffer]) + SlotReleaseCalls(newFd, slots[1]);
  }

  // ---------------------------------------------------------------------------
  // The driver's code on the window and device records

  /** One iteration of the creation loop, on slot `i` of the window's records; it
      returns whether a step failed. */
  method CreateSlot(fd: int, mode: Mode, buffers: array<DumbBuffer>, i: nat, r: SlotReplies, log: Log) returns (failed: bool)
    requires i < buffers.Length
    modifies buffers, log
    ensures var step := BuildSlot(fd, mode, old(buffers[i]), r);
      buffers[..] == old(buffers[..])[i := step.buffer] && log.calls == old(log.calls) + step.calls && failed == step.failed
  {
    var b := buffers[i];
    b := b.(width := mode.hdisplay, height := mode.vdisplay, bpp := DumbBpp);
    log.Record(CreateDumb(fd, b.width, b.height, b.bpp, r.created));
    if r.created.None? {
      buffers[i] := b.(bufId := -1);
      return true;
    }
    var c := r.created.value;
    b := b.(handle := c.handle, pitch := c.pitch, size := c.size);
    b := b.(destroyHandle := b.handle);
    log.Record(AddFB(fd, b.width, b.height, FbDepth, DumbBpp, b.pitch, b.handle, r.added));
    if r.added.None? {
      buffers[i] := b.(handle := U32MinusOne);
      return true;
    }
    b := b.(bufId := r.added.value);
    b := b.(mapHandle := b.handle);
    log.Record(MapDumb(fd, b.mapHandle, r.mapOffset));
    if r.mapOffset.None? {
      buffers[i] := b;
      return true;
    }
    b := b.(offset := r.mapOffset.value);
    log.Record(Mmap(fd, b.size, b.offset, r.mapped));
    b := b.(mapping := r.mapped);
    buffers[i] := b;
    failed := b.mapping == MapFailed;
  }

  /** The release of one slot record, as the rollback and the teardown do it. */
  method ReleaseSlot(fd: int, b: DumbBuffer, log: Log)
    modifies log
    ensures log.calls == old(log.calls) + SlotReleaseCalls(fd, b)
  {
    if b.bufId > 0 {
      log.Record(RmFB(fd, b.bufId));
    }
    if b.handle > 0 {
      log.Record(DestroyDumb(fd, b.destroyHandle));
    }
    if b.mapping != Null {
      log.Record(Unmap(b.mapping, b.size));
    }
  }

  /** Releasing the slots up to `j + 1` is releasing those up to `j`, then slot `j`. */
  lemma ReleaseSlotsNext(fd: int, slots: seq<DumbBuffer>, j: nat)
    requires j < |slots|
    ensures ReleaseSlots(fd, slots[..j + 1]) == ReleaseSlots(fd, slots[..j]) + SlotReleaseCalls(fd, slots[j])
  {
    assert slots[..j + 1][..j] == slots[..j];
  }

  /** One more iteration of the creation loop after no failure. */
  lemma BuildNext(fd: int, mode: Mode, slots: seq<DumbBuffer>, replies: seq<SlotReplies>, i: nat)
    requires i < |slots| == |replies| && !Build(fd, mode, slots, replies, i).failed
    ensures var prev := Build(fd, mode, slots, replies, i);
      var step := BuildSlot(fd, mode, prev.slots[i], replies[i]);
      Build(fd, mode, slots, replies, i + 1) == BuildState(prev.slots[i := step.buffer], prev.calls + step.calls, step.failed)
  {
  }

  /** The creation loop (lines 57-91): slot by slot until a step fails. */
  method BuildSlots(fd: int, mode: Mode, buffers: array<DumbBuffer>, replies: seq<SlotReplies>, log: Log) returns (failed: bool)
    requires |replies| == buffers.Length
    modifies buffers, log
    ensures var st := Build(fd, mode, old(buffers[..]), replies, buffers.Length);
      buffers[..] == st.slots && log.calls == old(log.calls) + st.calls && failed == st.failed
  {
    ghost var slots := buffers[..];
    ghost var start := log.calls;
    var n := buffers.Length;
    var i := 0;
    failed := false;
    while i < n && !failed
      invariant 0 <= i <= n
      invariant buffers[..] == Build(fd, mode, slots, replies, i).slots
      invariant log.calls == start + Build(fd, mode, slots, replies, i).calls
      invariant failed == Build(fd, mode, slots, replies, i).failed
      decreases n - i
    {
      BuildNext(fd, mode, slots, replies, i);
      ghost var prev := Build(fd, mode, slots, replies, i);
      AppendAssoc(start, prev.calls, BuildSlot(fd, mode, prev.slots[i], replies[i]).calls);
      failed := CreateSlot(fd, mode, buffers, i, replies[i], log);
      i := i + 1;
    }
    if failed {
      BuildStaysFailed(fd, mode, slots, replies, i, n);
    }
  }

  /** The rollback loop (lines 99-113): every slot released, in slot order. */
  method ReleaseSlotsInOrder(fd: int, buffers: array<DumbBuffer>, log: Log)
    modifies log
    ensures log.calls == old(log.calls) + ReleaseSlots(fd, buffers[..])
  {
    ghost var start := log.calls;
    ghost var slots := buffers[..];
    for j := 0 to buffers.Length
      invariant log.calls == start + ReleaseSlots(fd, slots[..j])
    {
      ReleaseSlotsNext(fd, slots, j);
      ReleaseSlot(fd, buffers[j], log);
      AppendAssoc(start, ReleaseSlots(fd, slots[..j]), SlotReleaseCalls(fd, slots[j]));
    }
    assert slots[..buffers.Length] == slots;
  }

  /** KMSDRM_Dumb_CreateDumbBuffers on the device and window records, given the
      replies of open, drmGetCap and every slot's four steps. */
  method CreateDumbBuffers(video: VideoData, win: WindowData, disp: DisplayData, log: Log,
                           newFd: int, cap: Option<nat>, replies: seq<SlotReplies>) returns (ret: int)
    requires |replies| == win.dumbBuffers.Length
    modifies video`drmFd, video`dumbInit, win`backBuffer, win`frontBuffer, win.dumbBuffers, log
    ensures var o := CreateDumbBuffersSpec(old(video.drmFd), newFd, cap, disp.fullscreenMode, old(win.dumbBuffers[..]), replies);
      ret == o.ret && video.drmFd == o.fd && win.dumbBuffers[..] == o.slots && log.calls == old(log.calls) + o.calls
      && (if o.ready then video.dumbInit && win.backBuffer == 0 && win.frontBuffer == 1
          else video.dumbInit == old(video.dumbInit) && win.backBuffer == old(win.backBuffer) && win.frontBuffer == old(win.frontBuffer))
  {
    ghost var start := log.calls;
    ghost var probe := ProbeCalls(video.drmFd, newFd, cap);
    ghost var slots := win.dumbBuffers[..];
    if video.drmFd < 0 {
      video.drmFd := newFd;
      log.Record(Open(newFd));
    }
    log.Record(GetDumbCap(video.drmFd, cap));
    assert log.calls == start + probe;
    if !(cap.Some? && cap.value != 0) {
      return -1;
    }
    ghost var st := Build(video.drmFd, disp.fullscreenMode, slots, replies, |slots|);
    AppendAssoc(start, probe, st.calls);
    var failed := BuildSlots(video.drmFd, disp.fullscreenMode, win.dumbBuffers, replies, log);
    if failed {
      AppendAssoc(start, probe + st.calls, ReleaseSlots(video.drmFd, st.slots));
      ReleaseSlotsInOrder(video.drmFd, win.dumbBuffers, log);
      return -1;
    }
    win.backBuffer := 0;
    win.frontBuffer := 1;
    video.dumbInit := true;
    return 0;
  }

  /** One iteration of the teardown loop: slot `j` released, then reset. */
  method ReleaseAndResetSlot(fd: int, buffers: array<DumbBuffer>, j: nat, log: Log)
    requires j < buffers.Length
    modifies buffers, log
    ensures buffers[..] == old(buffers[..])[j := ResetSlot(old(buffers[j]))]
    ensures log.calls == old(log.calls) + SlotReleaseCalls(fd, old(buffers[j]))
  {
    ReleaseSlot(fd, buffers[j], log);
    buffers[j] := buffers[j].(bufId := -1, handle := U32MinusOne, mapping := MapFailed);
  }

  /** The teardown loop (lines 200-217): every slot released, then reset. */
  method ReleaseAndResetSlots(fd: int, buffers: array<DumbBuffer>, log: Log)
    modifies buffers, log
    ensures buffers[..] == ResetAll(old(buffers[..]))
    ensures log.calls == old(log.calls) + ReleaseSlots(fd, old(buffers[..]))
  {
    ghost var slots := buffers[..];
    ghost var start := log.calls;
    for j := 0 to buffers.Length
      invariant forall k :: 0 <= k < j ==> buffers[k] == ResetSlot(slots[k])
      invariant forall k :: j <= k < buffers.Length ==> buffers[k] == slots[k]
      invariant log.calls == start + ReleaseSlots(fd, slots[..j])
    {
      ReleaseSlotsNext(fd, slots, j);
      AppendAssoc(start, ReleaseSlots(fd, slots[..j]), SlotReleaseCalls(fd, slots[j]));
      ReleaseAndResetSlot(fd, buffers, j, log);
    }
    assert slots[..buffers.Length] == slots;
  }

  /** KMSDRM_Dumb_DestroySurfaces: nothing when the buffers are not initialised;
      otherwise every slot released and reset, the descriptor closed and forgotten. */
  method DestroySurfaces(video: VideoData, win: WindowData, log: Log)
    modifies video`drmFd, video`dumbInit, win.dumbBuffers, log
    ensures !old(video.dumbInit) ==>
      video.drmFd == old(video.drmFd) && !video.dumbInit && win.dumbBuffers[..] == old(win.dumbBuffers[..]) && log.calls == old(log.calls)
    ensures old(video.dumbInit) ==>
      video.drmFd == -1 && !video.dumbInit && win.dumbBuffers[..] == ResetAll(old(win.dumbBuffers[..]))
      && log.calls == old(log.calls) + DestroyCalls(old(video.drmFd), old(win.dumbBuffers[..]))
  {
    if !video.dumbInit {
      return;
    }
    ReleaseAndResetSlots(video.drmFd, win.dumbBuffers, log);
    log.Record(Close(video.drmFd));
    video.drmFd := -1;
    video.dumbInit := false;
  }

  // ---------------------------------------------------------------------------
  // KMSDRM_Dumb_UpdateWindowFramebuffer

  /** What the row copy needs and the source never checks: a back buffer slot that
      is mapped, a window framebuffer surface in other memory, and every one of the
      window's rows lying inside both. */
  ghost predicate CopyReady(win: WindowData, window: SdlWindow)
    reads win, win.dumbBuffers
  {
    0 <= win.backBuffer < win.dumbBuffers.Length && win.framebuffer.Some?
    && var b := win.dumbBuffers[win.backBuffer];
       var surf := win.framebuffer.value;
       b.mapping.Mapped? && b.mapping.mem != surf.pixels
       && RowsFit(b.mapping.mem.Length, b.pitch, window.w * surf.bytesPerPixel, window.h)
       && RowsFit(surf.pixels.Length, surf.pitch, window.w * surf.bytesPerPixel, window.h)
  }

  /** The copy, the mode-set and the swap of the roles (lines 164-177). */
  method PresentBackBuffer(video: VideoData, win: WindowData, disp: DisplayData, window: SdlWindow,
                           log: Log, setCrtcRet: int) returns (ret: int)
    requires CopyReady(win, window)
    modifies win`backBuffer, win`frontBuffer, win.BackMemory(), log
    ensures var b := old(win.dumbBuffers[win.backBuffer]);
      var surf := old(win.framebuffer.value);
      b.mapping.mem[..] == CopyRows(old(b.mapping.mem[..]), b.pitch, surf.pixels[..], surf.pitch, window.w * surf.bytesPerPixel, window.h)
    ensures log.calls == old(log.calls) + [SetCrtcCall(video.drmFd, disp, old(win.dumbBuffers[win.backBuffer].bufId), setCrtcRet)]
    ensures ret == setCrtcRet && win.backBuffer == old(win.frontBuffer) && win.frontBuffer == old(win.backBuffer)
  {
    var buffer := win.dumbBuffers[win.backBuffer];
    var surf := win.framebuffer.value;
    CopyRowsInto(buffer.mapping.mem, buffer.pitch, surf.pixels, surf.pitch, window.w * surf.bytesPerPixel, window.h);
    log.Record(SetCrtcCall(video.drmFd, disp, buffer.bufId, setCrtcRet));
    ret := setCrtcRet;
    var swap := win.backBuffer;
    win.backBuffer := win.frontBuffer;
    win.frontBuffer := swap;
  }

  /** KMSDRM_Dumb_UpdateWindowFramebuffer, given the reply of drmModeSetCrtc and
      what KMSDRM_CreateSurfaces released and acquired if it runs. It refuses in
      OpenGL mode, recreates the surfaces after a mode change, refuses
      without dumb buffers, and otherwise copies every window row of the framebuffer
      surface into the back buffer's mapping, scans that buffer out and makes it the
      front one. */
  method UpdateWindowFramebuffer(video: VideoData, win: WindowData, disp: DisplayData, window: SdlWindow,
                                 log: Log, released: set<Res>, acquired: set<Res>, setCrtcRet: int) returns (ret: int)
    requires !video.openglMode && video.dumbInit ==> CopyReady(win, window)
    modifies win`backBuffer, win`frontBuffer, win.BackMemory(), log
    ensures video.openglMode ==> ret == -1 && log.calls == old(log.calls)
    ensures !video.openglMode && !video.dumbInit ==> log.calls == old(log.calls) + When(win.eglSurfaceDirty, CreateSurfaces(released, acquired))
    ensures video.openglMode || !video.dumbInit ==>
      ret == -1 && win.backBuffer == old(win.backBuffer) && win.frontBuffer == old(win.frontBuffer) && unchanged(old(win.BackMemory()))
    ensures !video.openglMode && video.dumbInit ==>
      var b := old(win.dumbBuffers[win.backBuffer]);
      var surf := old(win.framebuffer.value);
      b.mapping.mem[..] == CopyRows(old(b.mapping.mem[..]), b.pitch, surf.pixels[..], surf.pitch, window.w * surf.bytesPerPixel, window.h)
      && log.calls == old(log.calls) + When(win.eglSurfaceDirty, CreateSurfaces(released, acquired)) + [SetCrtcCall(video.drmFd, disp, b.bufId, setCrtcRet)]
      && ret == setCrtcRet && win.backBuffer == old(win.frontBuffer) && win.frontBuffer == old(win.backBuffer)
    ensures old(win.RolesValid()) ==> win.RolesValid()
  {
    if video.openglMode {
      return -1;
    }
    if win.eglSurfaceDirty {
      log.Record(CreateSurfaces(released, acquired));
    }
    if !video.dumbInit {
      return -1;
    }
    ret := PresentBackBuffer(video, win, disp, window, log, setCrtcRet);
  }

  // ---------------------------------------------------------------------------
  // The window framebuffer surface

  /** The software surface a window framebuffer field owns. */
  function Owned(fb: Option<Surface>): set<Res> {
    if fb.Some? then {SoftSurface(fb.value)} else {}
  }

  /** The calls that free a window framebuffer surface, if there is one. */
  function FreeCalls(fb: Option<Surface>): seq<Call> {
    if fb.Some? then [FreeSurface(fb.value)] else []
  }

  /** The call that creates the window framebuffer surface: ARGB8888 at 32 bits per
      pixel, the window's size. */
  function CreateSurfaceCall(window: SdlWindow, made: Option<Surface>): Call {
    CreateRGBSurface(window.w, window.h, 32, PixelFormatArgb8888, made)
  }

  /** Freeing the framebuffer gives back exactly the surface it owned. */
  lemma FreeReleasesOwned(live: set<Res>, fb: Option<Surface>)
    ensures ApplyAll(live, FreeCalls(fb)) == live - Owned(fb)
  {
    if fb.Some? {
      assert FreeCalls(fb)[..0] == [];
    }
  }

  /** Replacing the framebuffer gives back the old surface and keeps the new one. */
  lemma ReplaceFramebuffer(live: set<Res>, fb: Option<Surface>, window: SdlWindow, made: Option<Surface>)
    ensures ApplyAll(live, FreeCalls(fb) + [CreateSurfaceCall(window, made)]) == live - Owned(fb) + Owned(made)
  {
    FreeReleasesOwned(live, fb);
    ApplyAllAppend(live, FreeCalls(fb), [CreateSurfaceCall(window, made)]);
    assert [CreateSurfaceCall(window, made)][..0] == [];
  }

  /** KMSDRM_Dumb_DestroyWindowFramebuffer: the surface freed, if there is one, and
      the field cleared. */
  method DestroyWindowFramebuffer(win: WindowData, log: Log)
    modifies win`framebuffer, log
    ensures win.framebuffer == None && log.calls == old(log.calls) + FreeCalls(old(win.framebuffer))
  {
    if win.framebuffer.Some? {
      log.Record(FreeSurface(win.framebuffer.value));
      win.framebuffer := None;
    }
  }

  /** What KMSDRM_Dumb_CreateWindowFramebuffer hands back through its out-pointers. */
  datatype FramebufferInfo = FramebufferInfo(format: bv32, pixels: array<bv8>, pitch: nat)

  /** KMSDRM_Dumb_CreateWindowFramebuffer, given the surface SDL_CreateRGBSurfaceWithFormat
      returns. It refuses in OpenGL mode; otherwise it frees the old surface and
      installs the new one, handing back its format, pixels and pitch. */
  method CreateWindowFramebuffer(video: VideoData, win: WindowData, window: SdlWindow, log: Log, made: Option<Surface>)
    returns (ret: int, info: Option<FramebufferInfo>)
    modifies win`framebuffer, log
    ensures video.openglMode ==> ret == -1 && info == None && win.framebuffer == old(win.framebuffer) && log.calls == old(log.calls)
    ensures !video.openglMode ==>
      log.calls == old(log.calls) + FreeCalls(old(win.framebuffer)) + [CreateSurfaceCall(window, made)]
      && win.framebuffer == made
      && (made.Some? ==> ret == 0 && info == Some(FramebufferInfo(PixelFormatArgb8888, made.value.pixels, made.value.pitch)))
      && (made.None? ==> ret == -1 && info == None)
  {
    if video.openglMode {
      return -1, None;
    }
    DestroyWindowFramebuffer(win, log);
    log.Record(CreateSurfaceCall(window, made));
    if made.None? {
      return -1, None;
    }
    var surf := made.value;
    info := Some(FramebufferInfo(PixelFormatArgb8888, surf.pixels, surf.pitch));
    win.framebuffer := made;
    return 0, info;
  }
}
