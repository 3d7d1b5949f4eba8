# KMS/DRM frame presentation, modelled in Dafny

This project models the two ways SDL's KMS/DRM video backend gets a window's pixels onto a display.

- **Software path.** It lives in `src/video/kmsdrm/SDL_kmsdrmdumb.c`.
  - A pool of two CPU-mapped "dumb" scan-out buffers is built in four kernel steps per slot, with a `goto` rollback.
  - Each frame copies the software surface row by row into the back buffer's mapping, mode-sets that buffer and swaps the back/front roles.
  - The file also has the buffer teardown and the create/destroy pair for the window framebuffer surface.
- **GBM swap chain.** It lives in `src/video/kmsdrm/SDL_kmsdrmopengles.c`.
  - The life cycle of the GBM device, EGL surface, GBM surface and locked buffer objects (`GBMInit`, `GBMDestroySurfaces`, `GBMDeinit`).
  - The swap-interval validator.
  - The window's GL initialisation with its OpenGL ES 2.0 retry.
  - The per-frame order of `SwapWindow`: wait, release the front buffer object, promote the next one, swap, lock, then either a mode-set on the first frame or a page flip afterwards, with an optional second wait.

## How the model is built

- **`platform.dfy` (module `Platform`).** Every call into the kernel, libc, libgbm or EGL is an oracle.
  - A driver method takes the oracle's reply as a parameter.
  - It appends one `Call` value, which carries that reply, to a `Log`.
  - The live resources are a pure fold over the log, `ApplyAll(live, calls)`. The resources are descriptors, framebuffers, dumb handles, mappings, software surfaces, GBM devices, EGL and GBM surfaces, and locked buffer objects.
  - Each call adds what it `Acquired` and removes what it `Released`.
- **`kms.dfy` (module `Kms`).** The records the driver updates in place.
  - `VideoData` (`SDL_VideoData`) and `WindowData` (`SDL_WindowData`) are classes.
  - `WindowData` holds its two dumb buffer slots in an `array<DumbBuffer>`.
  - The device's EGL data is a class, allocated when the library loads.
- **`dumb.dfy` (module `KmsDumb`).** The software path.
  - Each loop of the C code is a `method` with a loop and invariants.
  - Each method is proved equal to a specification function (`Build`, `ReleaseSlots`, `CopyRows`, `CreateDumbBuffersSpec`).
  - Lemmas state what the specification functions guarantee.
  - The row copy updates the mapped `array<bv8>` in place.
- **`gles.dfy` (module `KmsGles`).** The GBM swap chain, in the same style.
  - `SwapWindow` is proved equal to `SwapWindowSpec`.
  - The frame properties are lemmas about that function.

### Behaviour of the code that the model keeps

- **The create request's handle is an unsigned 32-bit field.**
  - After a failed `drmModeAddFB`, line 75 stores `-1` there, which is `0xFFFFFFFF`.
  - That value still passes the rollback's `handle > 0` test, so the rollback destroys the dumb buffer. It does so through the destroy request, whose handle line 73 set.
  - `BuildSlot` and `SlotReleaseCalls` follow this.
  - `SlotHoldsWhatItAcquired` and `CreateFailureReleasesHeld` show that no dumb buffer leaks on that path.
- **The rollback is guarded by field values, not by how far creation got.**
  - Slots the loop never reached are released according to whatever they held before. The initial slot records are therefore an input.
  - `MAP_FAILED` is not NULL, so a failed mmap leads to `munmap(MAP_FAILED, size)`.
  - The rollback runs in slot order (RmFB, DESTROY_DUMB, munmap per slot), not in reverse.
  - It neither resets the slot records nor closes the descriptor; the code leaves the records as they were.
- **Teardown leaves stale handles.**
  - `DestroySurfaces` resets each slot to `buf_id = -1`, `handle = -1` and `map = MAP_FAILED`. The destroy request keeps its old handle.
  - A reset slot still passes `handle > 0` (`ResetSlotStale`).
  - The teardown also closes the descriptor and stores -1, so the next creation reopens the node.
  - A creation that fails after a teardown therefore issues DESTROY_DUMB with the stale handle on the new descriptor, and `munmap(MAP_FAILED)`, for every slot it did not rebuild (`RecreateAfterTeardownFailsStale`).
- **A failed `eglSwapBuffers` leaves `bo` and `next_bo` naming the same buffer object.**
  - The failure comes after the wait, the release and the promotion, and it leaves `bo == next_bo` (`SwapFailureAliases`).
  - The next frame releases that buffer object and promotes it to the front all the same (`SwapAfterFailurePromotesReleased`).
- **The software path always mode-sets.** It swaps the roles whatever the mode-set returned, and it never page-flips or waits.
- **GBMInit opens a new descriptor whenever GBM is available.** It does not check whether one is already open. It marks GBM initialised and the dumb buffers uninitialised even when no GBM device was created.
  - `GLES_InitWindow` calls it on every window, although the comment above the call says only the first time. A second window replaces the descriptor and the GBM device (`InitWindow`).

## Model

| member | source | states |
|---|---|---|
| KmsDumb.MemcpyCopies | src/video/kmsdrm/SDL_kmsdrmdumb.c:167 | one row's memcpy puts byte `j` of the source range at byte `j` of the target range |
| KmsDumb.MemcpyKeeps | src/video/kmsdrm/SDL_kmsdrmdumb.c:167 | one row's memcpy leaves every byte outside its target range alone |
| KmsDumb.CopyRowsCopies | src/video/kmsdrm/SDL_kmsdrmdumb.c:164-168 | after copying `h` rows, byte `j` of destination row `i` (at `i * dstPitch + j`) is byte `j` of source row `i` (at `i * srcPitch + j`); this holds when rows fit in both buffers and do not overlap in the destination |
| KmsDumb.CopyRowsKeepsOthers | src/video/kmsdrm/SDL_kmsdrmdumb.c:164-168 | every destination byte outside the copied rows keeps its old value |
| KmsDumb.CopyRows | src/video/kmsdrm/SDL_kmsdrmdumb.c:164-168 | the row copy never changes the buffer's length |
| KmsDumb.Memcpy | src/video/kmsdrm/SDL_kmsdrmdumb.c:167 | one row's memcpy leaves the destination's length unchanged |
| KmsDumb.CopyRowsInto | src/video/kmsdrm/SDL_kmsdrmdumb.c:164-168 | the in-place loop leaves the mapped buffer equal to `CopyRows` of its old contents; only that buffer is modified |
| KmsDumb.BuildSlot | src/video/kmsdrm/SDL_kmsdrmdumb.c:58-90 | a slot fails exactly when one of create, AddFB, map request or mmap (MAP_FAILED) fails; on success the create, map and destroy requests share the kernel's handle, and `buf_id`, pitch, size, offset and map are the replies; at most four calls, none releasing |
| KmsDumb.SlotRequests | src/video/kmsdrm/SDL_kmsdrmdumb.c:63-74 | each slot is requested at the mode's `hdisplay × vdisplay` and 32 bpp, and its framebuffer is added with depth 24, bpp 32 and the pitch and handle the kernel returned |
| KmsDumb.Build | src/video/kmsdrm/SDL_kmsdrmdumb.c:57-91 | the creation loop keeps the number of slots and releases nothing |
| KmsDumb.SlotAcquires | src/video/kmsdrm/SDL_kmsdrmdumb.c:67-90 | a slot acquires the dumb buffer once it is created, the framebuffer once it is added and the mapping once mmap returns one, and nothing else |
| KmsDumb.SlotHoldsWhatItAcquired | src/video/kmsdrm/SDL_kmsdrmdumb.c:58-90 | a slot record, even a failed one, points at everything its steps acquired (the rollback can find it), and at exactly that after success |
| KmsDumb.BuildUntouched | src/video/kmsdrm/SDL_kmsdrmdumb.c:57-91 | slots the loop has not reached keep their old records |
| KmsDumb.BuildStaysFailed | src/video/kmsdrm/SDL_kmsdrmdumb.c:70-89 | after the first failure the loop does nothing more (the jump to the rollback) |
| KmsDumb.BuildHoldsWhatItAcquired | src/video/kmsdrm/SDL_kmsdrmdumb.c:57-91 | whatever the loop acquired, the slot records it went through point at |
| KmsDumb.BuildHoldsExactly | src/video/kmsdrm/SDL_kmsdrmdumb.c:57-91 | after a loop with no failure, the slot records point at exactly what it acquired |
| KmsDumb.BuildSucceeded | src/video/kmsdrm/SDL_kmsdrmdumb.c:57-91 | after a loop with no failure, every slot holds the result of its four steps, each of which succeeded |
| KmsDumb.BuildFailsAtSomeSlot | src/video/kmsdrm/SDL_kmsdrmdumb.c:57-91 | a failed loop failed at a slot whose replies report a failure |
| KmsDumb.SlotReleaseReleasesHeld | src/video/kmsdrm/SDL_kmsdrmdumb.c:105-112 | the guarded RmFB, DESTROY_DUMB and munmap of one slot release exactly what the record points at |
| KmsDumb.ReleaseSlotsReleasesHeld | src/video/kmsdrm/SDL_kmsdrmdumb.c:99-113 | releasing every slot in order releases exactly what the records point at |
| KmsDumb.ReleaseSlotsAcquiresNothing | src/video/kmsdrm/SDL_kmsdrmdumb.c:99-113 | the rollback loop acquires nothing |
| KmsDumb.CreateDumbBuffersSpec | src/video/kmsdrm/SDL_kmsdrmdumb.c:34-116 | the descriptor is the old one if open, otherwise the reopened one; the number of slots is kept |
| KmsDumb.CreateWithoutCapability | src/video/kmsdrm/SDL_kmsdrmdumb.c:47-55 | without dumb buffer support (query failed or value 0) creation returns -1 after the open-if-closed and the query, keeps the slot records and makes no other call; `dumb_init` is set exactly when it returns 0 |
| KmsDumb.CreateSucceedsIff | src/video/kmsdrm/SDL_kmsdrmdumb.c:52-97 | creation returns 0 exactly when the capability query succeeds with a non-zero value and every step of every slot succeeds, and -1 otherwise |
| KmsDumb.ProbeAcquires | src/video/kmsdrm/SDL_kmsdrmdumb.c:47-55 | the open-if-closed and the capability query acquire at most the descriptor they opened and release nothing |
| KmsDumb.CreateFailureReleasesHeld | src/video/kmsdrm/SDL_kmsdrmdumb.c:98-115 | after a failure past the capability check, the live resources are the old ones plus the opened descriptor, minus everything the slot records point at |
| KmsDumb.CreateFailureLeaksNothing | src/video/kmsdrm/SDL_kmsdrmdumb.c:98-115 | a failed creation leaves nothing live beyond what was live before and the device descriptor |
| KmsDumb.CreateSuccessHolds | src/video/kmsdrm/SDL_kmsdrmdumb.c:57-97 | a successful creation adds exactly the opened descriptor and what the slot records point at |
| KmsDumb.CreateSuccessSlots | src/video/kmsdrm/SDL_kmsdrmdumb.c:57-90 | after a successful creation each slot is its four steps' result, with a mapping that is not MAP_FAILED |
| KmsDumb.CreateSlot | src/video/kmsdrm/SDL_kmsdrmdumb.c:58-90 | one loop iteration changes only slot `i`, to `BuildSlot`'s record, logs its calls and reports its failure |
| KmsDumb.ReleaseSlot | src/video/kmsdrm/SDL_kmsdrmdumb.c:105-112 | one slot's release makes exactly `SlotReleaseCalls` |
| KmsDumb.BuildSlots | src/video/kmsdrm/SDL_kmsdrmdumb.c:57-91 | the creation loop leaves the slot array equal to `Build(...).slots`, logs its calls and reports whether a step failed |
| KmsDumb.ReleaseSlotsInOrder | src/video/kmsdrm/SDL_kmsdrmdumb.c:99-113 | the rollback loop logs `ReleaseSlots` of the slots as they stand |
| KmsDumb.CreateDumbBuffers | src/video/kmsdrm/SDL_kmsdrmdumb.c:34-116 | return value, descriptor, slots and calls are `CreateDumbBuffersSpec`'s; on success `dumb_init`, back 0 and front 1; otherwise those fields are unchanged |
| KmsDumb.ResetSlot | src/video/kmsdrm/SDL_kmsdrmdumb.c:214-216 | a reset slot has `buf_id <= 0`, a create handle that is positive as an unsigned value, `map = MAP_FAILED`, and the destroy handle and size it had |
| KmsDumb.ResetAll | src/video/kmsdrm/SDL_kmsdrmdumb.c:200-217 | every slot is reset |
| KmsDumb.DestroyReleases | src/video/kmsdrm/SDL_kmsdrmdumb.c:200-221 | the teardown releases everything the slot records point at and the descriptor |
| KmsDumb.CreateThenDestroy | src/video/kmsdrm/SDL_kmsdrmdumb.c:189-222 | a successful creation followed by a teardown leaves the resources there were, without the descriptor and what the slots pointed at |
| KmsDumb.ResetSlotStale | src/video/kmsdrm/SDL_kmsdrmdumb.c:205-216 | a reset slot still points at its old dumb handle, and its release is DESTROY_DUMB of that handle followed by munmap of MAP_FAILED |
| KmsDumb.ZeroSlotHoldsNothing | src/video/kmsdrm/SDL_kmsdrmdumb.c:105-112 | a zero-filled slot points at nothing and its release makes no call |
| KmsDumb.RecreateAfterTeardownFailsStale | src/video/kmsdrm/SDL_kmsdrmdumb.c:47-113 | after a teardown (descriptor -1), a creation reopens the node; when its first create fails it returns -1, and its rollback destroys both slots' stale handles on the new descriptor and unmaps MAP_FAILED twice |
| KmsDumb.ReleaseAndResetSlot | src/video/kmsdrm/SDL_kmsdrmdumb.c:201-216 | one teardown iteration releases slot `j` and resets it; no other slot changes |
| KmsDumb.ReleaseAndResetSlots | src/video/kmsdrm/SDL_kmsdrmdumb.c:200-217 | the teardown loop logs `ReleaseSlots` and leaves every slot reset |
| KmsDumb.DestroySurfaces | src/video/kmsdrm/SDL_kmsdrmdumb.c:189-222 | without `dumb_init`, nothing changes and no call is made; otherwise every slot is released and reset, the descriptor is closed and set to -1, and `dumb_init` is cleared (so a second call is a no-op) |
| KmsDumb.PresentBackBuffer | src/video/kmsdrm/SDL_kmsdrmdumb.c:164-177 | the back buffer's mapping is `CopyRows` of the surface, the old back buffer's `buf_id` is mode-set at offset (0, 0) in the display's mode, the result is returned and the roles are swapped |
| KmsDumb.UpdateWindowFramebuffer | src/video/kmsdrm/SDL_kmsdrmdumb.c:144-178 | OpenGL mode gives -1 with no call; without `dumb_init` it gives -1 after the optional surface recreation, logged with what it released and acquired; both leave the roles and the back memory unchanged; otherwise it copies, mode-sets, swaps and returns the mode-set result; back ≠ front is preserved |
| KmsDumb.FreeReleasesOwned | src/video/kmsdrm/SDL_kmsdrmdumb.c:183-186 | freeing the framebuffer releases exactly the surface it owned |
| KmsDumb.ReplaceFramebuffer | src/video/kmsdrm/SDL_kmsdrmdumb.c:129-139 | recreating the framebuffer releases the old surface and keeps exactly the new one |
| KmsDumb.DestroyWindowFramebuffer | src/video/kmsdrm/SDL_kmsdrmdumb.c:180-187 | the surface is freed if there is one and the field cleared |
| KmsDumb.CreateWindowFramebuffer | src/video/kmsdrm/SDL_kmsdrmdumb.c:118-142 | OpenGL mode gives -1 and changes nothing; otherwise the old surface is freed and an ARGB8888 32-bit surface of the window's size is requested; on success it returns 0 with format, pixels and pitch, and on failure -1 with the field cleared |
| KmsGles.GbmInitAcquires | src/video/kmsdrm/SDL_kmsdrmopengles.c:55-62 | the initialisation acquires the reopened descriptor and the GBM device, when there are such, and releases nothing |
| KmsGles.GbmInit | src/video/kmsdrm/SDL_kmsdrmopengles.c:46-71 | without GBM it returns -1 and changes nothing; otherwise it reopens the descriptor unconditionally and sets `gbm_init` and clears `dumb_init`; it returns 0 exactly when a device was created |
| KmsGles.Cleared | src/video/kmsdrm/SDL_kmsdrmopengles.c:78-104 | the window's GBM fields after teardown point at nothing; the flip flag is untouched |
| KmsGles.DestroyEglReleases | src/video/kmsdrm/SDL_kmsdrmopengles.c:78-81 | the guarded surface destruction releases exactly the EGL surface, if present |
| KmsGles.ReleaseBoReleases | src/video/kmsdrm/SDL_kmsdrmopengles.c:87-95 | the guarded buffer release releases exactly the buffer object, if present |
| KmsGles.DestroyGsReleases | src/video/kmsdrm/SDL_kmsdrmopengles.c:101-104 | the guarded GBM surface destruction releases exactly that surface, if present |
| KmsGles.GbmReleaseReleased | src/video/kmsdrm/SDL_kmsdrmopengles.c:73-105 | the teardown releases exactly what the window points at and acquires nothing |
| KmsGles.GbmReleaseReleasesHeld | src/video/kmsdrm/SDL_kmsdrmopengles.c:73-105 | after the teardown the live resources are the old ones minus what the window pointed at |
| KmsGles.GbmReleaseTwice | src/video/kmsdrm/SDL_kmsdrmopengles.c:73-105 | a second teardown only drops the current context and releases nothing |
| KmsGles.GbmDestroySurfaces | src/video/kmsdrm/SDL_kmsdrmopengles.c:73-105 | the fields end cleared and the log gets the guarded release calls, buffer objects before their surface |
| KmsGles.GbmDeinitReleases | src/video/kmsdrm/SDL_kmsdrmopengles.c:108-126 | the deinitialisation releases the GBM device and the descriptor, each only if present |
| KmsGles.GbmDeinit | src/video/kmsdrm/SDL_kmsdrmopengles.c:108-126 | it destroys the device only if non-null and closes the descriptor only if ≥ 0, ending with no device, descriptor -1 (when it was open) and `gbm_init` cleared; a second call makes no call |
| KmsGles.GbmInitThenDeinit | src/video/kmsdrm/SDL_kmsdrmopengles.c:108-126 | deinitialising right after an initialisation gives back exactly what it acquired |
| KmsGles.SetSwapInterval | src/video/kmsdrm/SDL_kmsdrmopengles.c:160-175 | without EGL data it returns -1; otherwise it returns 0 exactly for 0 or 1, storing the interval then and keeping the old one otherwise |
| KmsGles.InitWindowSpec | src/video/kmsdrm/SDL_kmsdrmopengles.c:210-228 | the initialisation returns 0 or -1 |
| KmsGles.InitWindowOutcome | src/video/kmsdrm/SDL_kmsdrmopengles.c:210-228 | it succeeds exactly when EGL was loaded already or one of the two loads succeeds; the ES profile is forced exactly when the first load failed; the driver is marked loaded exactly when a load succeeded; the cursor BO is created exactly on success |
| KmsGles.InitWindow | src/video/kmsdrm/SDL_kmsdrmopengles.c:177-229 | with GBM available, every call reopens the descriptor and installs the new descriptor and GBM device, sets `gbm_init` and clears `dumb_init`; without GBM those fields are unchanged; a failed GBMInit gives -1 and touches neither EGL data nor GL config; otherwise return value, configuration and calls are `InitWindowSpec`'s, and EGL data is fresh, on the loaded display with interval 0, exactly when a load happened |
| KmsGles.FlipFlags | src/video/kmsdrm/SDL_kmsdrmopengles.c:312-314 | the flags always hold the event bit, hold the async bit exactly when the swap interval is 0 and async flips are supported, and hold no other bit |
| KmsGles.Present | src/video/kmsdrm/SDL_kmsdrmopengles.c:287-342 | the presentation step returns, sets the flip flag and logs as `PresentSpec` says |
| KmsGles.AwaitPrevious | src/video/kmsdrm/SDL_kmsdrmopengles.c:244-250 | when the surfaces are dirty, the window's GBM fields and dirty flag become what the recreation reports; the recreation and the first wait are logged, and the flip flag is what the wait left |
| KmsGles.WaitLedger | src/video/kmsdrm/SDL_kmsdrmopengles.c:244-250 | before the first wait, the live resources change exactly by what the recreation of dirty surfaces released and acquired; the wait changes nothing |
| KmsGles.ReleaseAndSwap | src/video/kmsdrm/SDL_kmsdrmopengles.c:256-265 | the old front buffer is released if present, `next_bo` promoted and then eglSwapBuffers called |
| KmsGles.LockNext | src/video/kmsdrm/SDL_kmsdrmopengles.c:274-285 | `next_bo` becomes the locked buffer; the framebuffer is requested only when one was locked; it continues exactly when both succeeded |
| KmsGles.SwapWindow | src/video/kmsdrm/SDL_kmsdrmopengles.c:231-343 | return value, the window's GBM fields and the calls are `SwapWindowSpec`'s, which works on the fields the recreation left when the surfaces were dirty; the dirty flag is cleared exactly when a recreation cleared it |
| KmsGles.SwapWaitFailureAborts | src/video/kmsdrm/SDL_kmsdrmopengles.c:244-253 | a failed first wait returns 0 with `bo` and `next_bo` as the recreation, if any, left them and no call after the wait |
| KmsGles.SwapSucceedsIff | src/video/kmsdrm/SDL_kmsdrmopengles.c:250-342 | a frame returns 1 exactly when it got to presenting and either the first-frame mode-set (no `next_bo` after any recreation) succeeded or (later frames) the optional second wait completed; a refused page flip still returns 1; otherwise 0 |
| KmsGles.SwapPresentsBy | src/video/kmsdrm/SDL_kmsdrmopengles.c:287-316 | the first frame (nothing promoted) presents by mode-set and flips nothing; later frames page-flip with `FlipFlags` |
| KmsGles.SwapPendingFlag | src/video/kmsdrm/SDL_kmsdrmopengles.c:319-342 | `waiting_for_flip` after a frame: what a failed first wait left; after a page flip, set exactly when it returned 0, or what the double-buffer wait left; clear otherwise, including after a first-frame mode-set |
| KmsGles.SwapWindowLedger | src/video/kmsdrm/SDL_kmsdrmopengles.c:244-342 | a frame applies what the recreation of dirty surfaces released and acquired, releases the old front buffer once the wait completed, holds the locked buffer once the swap succeeded, and changes nothing else |
| KmsGles.SwapKeepsBosHeld | src/video/kmsdrm/SDL_kmsdrmopengles.c:256-281 | when the window's buffer objects are live and distinct after any recreation, the lock yields a new buffer object and the swap does not fail after the wait, they stay live and distinct |
| KmsGles.SwapFailureAliases | src/video/kmsdrm/SDL_kmsdrmopengles.c:256-269 | a swap failure after a completed wait returns 0 with the promotion done, leaving `bo == next_bo` |
| KmsGles.SwapAfterFailurePromotesReleased | src/video/kmsdrm/SDL_kmsdrmopengles.c:256-261 | the next frame that does not recreate the surfaces releases that buffer object and then promotes it to the front |

## Left out

- The kernel, libc, libgbm and EGL calls are oracles: their reply is a parameter and their effect is the log entry. Neither DRM master status nor the kernel's own state is modelled.
- `KMSDRM_CreateSurfaces`, called when `egl_surface_dirty` is set, is an oracle; its code is not part of this model. Its reply is what it released and acquired. On the GBM path the reply also holds the window's GBM fields and dirty flag afterwards, and the rest of the frame works on those.
- KmsDumb.UpdateWindowFramebuffer: after `KMSDRM_CreateSurfaces` it uses `dumb_init`, the descriptor, the back and front indices, the slot records and the framebuffer surface as they were before the call. The back buffer pointer is even taken before it (line 149). Whether that function changes those fields is not modelled.
- `KMSDRM_WaitPageflip` is an oracle. It either completes, leaving no flip pending, or fails, leaving the pending flag it returns. Vblank timing and event delivery are not modelled.
- `KMSDRM_FBFromBO` is an oracle. The framebuffer it attaches to a buffer object is not tracked as a live resource.
- `KMSDRM_CreateCursorBO` is only logged.
- `SDL_EGL_LoadLibrary` is an oracle that gives the EGL display or fails. The EGL data it allocates is a fresh `EglData` with swap interval 0.
- `SDL_CreateRGBSurfaceWithFormat` and `SDL_FreeSurface` are oracles.
- `KMSDRM_GLES_DefaultProfileConfig`, `KMSDRM_GLES_LoadLibrary`, `KMSDRM_GLES_UnloadLibrary` and the macro-generated `CreateContext`/`MakeCurrent` are left out. They are a compile-time default, two empty functions and macro bodies whose code is not in these files.
- Logging and error strings are left out. `SDL_SetError` is its return value, -1.
- The record types come from `SDL_kmsdrmvideo.h`, which is not part of this model.
  - `buf_id` is taken to be a signed integer, so the `-1` sentinel stored at lines 68 and 214 fails `buf_id > 0` at lines 105 and 205. Line 74 passes its address where `drmModeAddFB` expects a `uint32_t *`, so the header may declare it unsigned instead. In that case the sentinel would pass the test, and the rollback and the teardown would issue RmFB(0xFFFFFFFF) for such a slot. `ResetSlot` (`buf_id <= 0`), `SlotReleaseCalls` and `RecreateAfterTeardownFailsStale` rest on this reading of the header.
  - `map` is a byte mapping (`array<bv8>`), MAP_FAILED or NULL.
  - The request records' handle fields are unsigned 32-bit, as the Linux DRM interface declares them.
- Integer widths in the row copy are not modelled. `window->w * BytesPerPixel` and `i * pitch` are unbounded integers, so overflow is not captured.
- KmsDumb.UpdateWindowFramebuffer requires what the source never checks: a mapped back buffer, a framebuffer surface in other memory, and every row lying inside both (`CopyReady`). A call without these would read or write out of bounds in C; the model does not describe that call.
- KmsGles.SwapWindow, KmsGles.Present and KmsGles.ReleaseAndSwap require `egl_data` to be non-null. The source dereferences it without a check.
- KmsGles.SwapKeepsBosHeld excludes the eglSwapBuffers failure. In that case `SwapFailureAliases` and `SwapAfterFailurePromotesReleased` state what happens instead.
- A dumb buffer resource is its handle alone, not tied to the descriptor it was created on. A stale handle destroyed on a reopened descriptor (`RecreateAfterTeardownFailsStale`) is counted as the resource of that number; in the kernel, handles are per open file, so that call names no buffer of the new descriptor or, by chance, another one.
- KmsDumb.BuildSlot takes it that a failed `DRM_IOCTL_MODE_CREATE_DUMB` leaves the request's handle as it was. The rollback of that slot then destroys through the destroy request's old handle, as `RecreateAfterTeardownFailsStale` states for slot 0.
- KmsDumb.SlotHoldsWhatItAcquired, KmsDumb.BuildHoldsWhatItAcquired, KmsDumb.BuildHoldsExactly, KmsDumb.CreateFailureReleasesHeld, KmsDumb.CreateFailureLeaksNothing, KmsDumb.CreateSuccessHolds and KmsDumb.CreateThenDestroy require `KernelIds`: every dumb handle the kernel returns is non-zero and every framebuffer id it returns is positive. The kernel allocates both from 1. Without that premise, a slot whose handle or `buf_id` were 0 would fail the rollback's and teardown's `> 0` tests, and its resource would not be released.
- The mode passed to `drmModeSetCrtc` (`dispdata->mode`) is recorded by its visible size only. The call records the offset (0, 0), the connector id and that mode; the connector count is always 1, and the mode's timing fields are not modelled.
- Concurrency is left out: the driver is single-threaded.
