/**
 * The GBM swap chain of the KMS/DRM backend (src/video/kmsdrm/SDL_kmsdrmopengles.c):
 * the GBM device's life cycle on the device descriptor, the teardown of a
 * window's EGL surface, GBM surface and locked buffer objects, the swap interval,
 * the window's GL initialisation with its OpenGL ES 2.0 retry, and the per-frame
 * order of waiting, releasing, promoting, swapping, locking and presenting.
 */
module KmsGles {
  import opened Platform
  import opened Kms

  /** DRM_MODE_PAGE_FLIP_EVENT and DRM_MODE_PAGE_FLIP_ASYNC. */
  const PageFlipEvent: bv32 := 0x01
  const PageFlipAsync: bv32 := 0x02

  /** SDL_GL_CONTEXT_PROFILE_ES. */
  const ProfileEs: int := 0x0004

  // ---------------------------------------------------------------------------
  // KMSDRM_GBMInit

  /** The calls of a GBM initialisation past the availability check: the device
      reopened, made DRM master, and a GBM device created on it. */
  function GbmInitCalls(newFd: int, device: Option<nat>): seq<Call> {
    [Open(newFd), SetMaster(newFd), CreateGbmDevice(newFd, device)]
  }

  /** The initialisation acquires the reopened descriptor and the GBM device, when
      there are such, and releases nothing. */
  lemma GbmInitAcquires(live: set<Res>, newFd: int, device: Option<nat>)
    ensures ApplyAll(live, GbmInitCalls(newFd, device))
         == live + (if newFd >= 0 then {Fd(newFd)} else {}) + (if device.Some? then {GbmDevice(device.value)} else {})
  {
    var cs := GbmInitCalls(newFd, device);
    assert ReleasesNothing(cs) by {
      assert forall i :: 0 <= i < |cs| ==> Released(cs[i]) == {};
    }
    OneCall(Open(newFd));
    OneCall(SetMaster(newFd));
    OneCall(CreateGbmDevice(newFd, device));
    assert cs == [Open(newFd)] + [SetMaster(newFd)] + [CreateGbmDevice(newFd, device)];
    AcquiredAllAppend([Open(newFd)], [SetMaster(newFd)]);
    AcquiredAllAppend([Open(newFd)] + [SetMaster(newFd)], [CreateGbmDevice(newFd, device)]);
    AcquiringLog(live, cs);
  }

  /** KMSDRM_GBMInit, given whether the GBM library is there and the replies of open
      and gbm_create_device. Without GBM it fails touching nothing; otherwise it
      reopens the descriptor unconditionally, forgetting the old one, and marks GBM
      initialised and the dumb buffers not, even when no device was created. */
  method GbmInit(video: VideoData, log: Log, haveGbm: bool, newFd: int, device: Option<nat>) returns (ret: int)
    modifies video`drmFd, video`gbmDev, video`gbmInit, video`dumbInit, log
    ensures !haveGbm ==>
      ret == -1 && log.calls == old(log.calls)
      && video.drmFd == old(video.drmFd) && video.gbmDev == old(video.gbmDev)
      && video.gbmInit == old(video.gbmInit) && video.dumbInit == old(video.dumbInit)
    ensures haveGbm ==>
      log.calls == old(log.calls) + GbmInitCalls(newFd, device)
      && video.drmFd == newFd && video.gbmDev == device && video.gbmInit && !video.dumbInit
      && (ret == 0 <==> device.Some?) && (ret == 0 || ret == -1)
  {
    if !haveGbm {
      return -1;
    }
    ret := 0;
    video.drmFd := newFd;
    log.Record(Open(newFd));
    log.Record(SetMaster(video.drmFd));
    video.gbmDev := device;
    log.Record(CreateGbmDevice(video.drmFd, device));
    if video.gbmDev.None? {
      ret := -1;
    }
    video.gbmInit := true;
    video.dumbInit := false;
  }

  // ---------------------------------------------------------------------------
  // KMSDRM_GBMDestroySurfaces

  /** The locked buffer object a pointer names, if any. */
  function BoRes(bo: Option<nat>): set<Res> {
    if bo.Some? then {LockedBo(bo.value)} else {}
  }

  /** The locked buffer objects a window points at. */
  function BoHeld(g: GbmWindow): set<Res> {
    BoRes(g.bo) + BoRes(g.nextBo)
  }

  /** Everything the window's GBM fields point at: its EGL surface, its locked
      buffer objects and its GBM surface. */
  function GbmHeld(g: GbmWindow): set<Res> {
    (if g.eglSurface.Some? then {EglSurface(g.eglSurface.value)} else {})
    + BoHeld(g)
    + (if g.gs.Some? then {GbmSurface(g.gs.value)} else {})
  }

  /** The window's GBM fields after the teardown: all cleared. */
  function Cleared(g: GbmWindow): (r: GbmWindow)
    ensures GbmHeld(r) == {} && r.waitingForFlip == g.waitingForFlip
  {
    g.(eglSurface := None, gs := None, bo := None, nextBo := None)
  }

  /** eglDestroySurface on the window's EGL surface, if it has one. */
  function DestroyEgl(surface: Option<nat>): seq<Call> {
    if surface.Some? then [DestroyEglSurface(surface.value)] else []
  }

  /** gbm_surface_release_buffer on a locked buffer object, if there is one. */
  function ReleaseBo(gs: Option<nat>, bo: Option<nat>): seq<Call> {
    if bo.Some? then [ReleaseBuffer(gs, bo.value)] else []
  }

  /** gbm_surface_destroy on the window's GBM surface, if it has one. */
  function DestroyGs(gs: Option<nat>): seq<Call> {
    if gs.Some? then [DestroyGbmSurface(gs.value)] else []
  }

  /** The calls of the teardown: no current context, then each resource that is
      present released, the buffer objects before the surface they came from. */
  function GbmReleaseCalls(g: GbmWindow): seq<Call> {
    [MakeCurrentNone] + DestroyEgl(g.eglSurface) + ReleaseBo(g.gs, g.bo) + ReleaseBo(g.gs, g.nextBo) + DestroyGs(g.gs)
  }

  lemma OneCall(c: Call)
    ensures ReleasedAll([c]) == Released(c) && AcquiredAll([c]) == Acquired(c)
  {
    assert [c][..0] == [];
  }

  lemma DestroyEglReleases(surface: Option<nat>)
    ensures ReleasedAll(DestroyEgl(surface)) == (if surface.Some? then {EglSurface(surface.value)} else {})
    ensures AcquiresNothing(DestroyEgl(surface))
  {
    if surface.Some? { OneCall(DestroyEglSurface(surface.value)); }
  }

  lemma ReleaseBoReleases(gs: Option<nat>, bo: Option<nat>)
    ensures ReleasedAll(ReleaseBo(gs, bo)) == BoRes(bo)
    ensures AcquiresNothing(ReleaseBo(gs, bo))
  {
    if bo.Some? { OneCall(ReleaseBuffer(gs, bo.value)); }
  }

  lemma DestroyGsReleases(gs: Option<nat>)
    ensures ReleasedAll(DestroyGs(gs)) == (if gs.Some? then {GbmSurface(gs.value)} else {})
    ensures AcquiresNothing(DestroyGs(gs))
  {
    if gs.Some? { OneCall(DestroyGbmSurface(gs.value)); }
  }

  /** The teardown releases exactly what the window points at, and acquires nothing. */
  lemma GbmReleaseReleased(g: GbmWindow)
    ensures ReleasedAll(GbmReleaseCalls(g)) == GbmHeld(g)
    ensures AcquiresNothing(GbmReleaseCalls(g))
  {
    var a := [MakeCurrentNone] + DestroyEgl(g.eglSurface);
    var bos := ReleaseBo(g.gs, g.bo) + ReleaseBo(g.gs, g.nextBo);
    var e := DestroyGs(g.gs);
    AppendAssoc(a, ReleaseBo(g.gs, g.bo), ReleaseBo(g.gs, g.nextBo));
    assert GbmReleaseCalls(g) == a + bos + e;
    BosReleased(g);
    DestroyGsReleases(g.gs);
    DestroyEglReleases(g.eglSurface);
    OneCall(MakeCurrentNone);
    var egl := if g.eglSurface.Some? then {EglSurface(g.eglSurface.value)} else {};
    assert ReleasedAll(a) == egl by {
      ReleasedAllAppend([MakeCurrentNone], DestroyEgl(g.eglSurface));
    }
    assert ReleasedAll(a + bos) == egl + BoHeld(g) by {
      ReleasedAllAppend(a, bos);
    }
    assert ReleasedAll(a + bos + e) == GbmHeld(g) by {
      ReleasedAllAppend(a + bos, e);
    }
    assert AcquiresNothing(a + bos + e) by {
      AcquiresNothingAppend([MakeCurrentNone], DestroyEgl(g.eglSurface));
      AcquiresNothingAppend(a, bos);
      AcquiresNothingAppend(a + bos, e);
    }
  }

  /** The two buffer object releases of the teardown release exactly `BoHeld`. */
  lemma BosReleased(g: GbmWindow)
    ensures ReleasedAll(ReleaseBo(g.gs, g.bo) + ReleaseBo(g.gs, g.nextBo)) == BoHeld(g)
    ensures AcquiresNothing(ReleaseBo(g.gs, g.bo) + ReleaseBo(g.gs, g.nextBo))
  {
    ReleaseBoReleases(g.gs, g.bo);
    ReleaseBoReleases(g.gs, g.nextBo);
    ReleasedAllAppend(ReleaseBo(g.gs, g.bo), ReleaseBo(g.gs, g.nextBo));
    AcquiresNothingAppend(ReleaseBo(g.gs, g.bo), ReleaseBo(g.gs, g.nextBo));
  }

  /** The teardown gives back exactly what the window points at. */
  lemma GbmReleaseReleasesHeld(live: set<Res>, g: GbmWindow)
    ensures ApplyAll(live, GbmReleaseCalls(g)) == live - GbmHeld(g)
  {
    GbmReleaseReleased(g);
    ReleasingLog(live, GbmReleaseCalls(g));
  }

  /** A second teardown right after the first only drops the current context. */
  lemma GbmReleaseTwice(g: GbmWindow)
    ensures GbmReleaseCalls(Cleared(g)) == [MakeCurrentNone]
  {
  }

  /** KMSDRM_GBMDestroySurfaces on the window record. */
  method GbmDestroySurfaces(win: WindowData, log: Log)
    modifies win`eglSurface, win`gs, win`bo, win`nextBo, log
    ensures win.Gbm() == Cleared(old(win.Gbm()))
    ensures log.calls == old(log.calls) + GbmReleaseCalls(old(win.Gbm()))
  {
    ghost var g := win.Gbm();
    ghost var start := log.calls;
    log.Record(MakeCurrentNone);
    ghost var made := [MakeCurrentNone];
    if win.eglSurface.Some? {
      AppendAssoc(start, made, [DestroyEglSurface(win.eglSurface.value)]);
      log.Record(DestroyEglSurface(win.eglSurface.value));
      win.eglSurface := None;
    }
    made := made + DestroyEgl(g.eglSurface);
    assert log.calls == start + made;
    if win.bo.Some? {
      AppendAssoc(start, made, [ReleaseBuffer(win.gs, win.bo.value)]);
      log.Record(ReleaseBuffer(win.gs, win.bo.value));
      win.bo := None;
    }
    made := made + ReleaseBo(g.gs, g.bo);
    assert log.calls == start + made;
    if win.nextBo.Some? {
      AppendAssoc(start, made, [ReleaseBuffer(win.gs, win.nextBo.value)]);
      log.Record(ReleaseBuffer(win.gs, win.nextBo.value));
      win.nextBo := None;
    }
    made := made + ReleaseBo(g.gs, g.nextBo);
    assert log.calls == start + made;
    if win.gs.Some? {
      AppendAssoc(start, made, [DestroyGbmSurface(win.gs.value)]);
      log.Record(DestroyGbmSurface(win.gs.value));
      win.gs := None;
    }
    made := made + DestroyGs(g.gs);
    assert log.calls == start + made;
  }

  // ---------------------------------------------------------------------------
  // KMSDRM_GBMDeinit

  /** The calls of the deinitialisation: the GBM device destroyed if there is one,
      the descriptor closed if it is open. */
  function GbmDeinitCalls(gbmDev: Option<nat>, fd: int): seq<Call> {
    (if gbmDev.Some? then [DestroyGbmDevice(gbmDev.value)] else [])
    + (if fd >= 0 then [Close(fd)] else [])
  }

  /** The deinitialisation gives back the GBM device and the descriptor. */
  lemma GbmDeinitReleases(live: set<Res>, gbmDev: Option<nat>, fd: int)
    ensures ApplyAll(live, GbmDeinitCalls(gbmDev, fd))
         == live - (if gbmDev.Some? then {GbmDevice(gbmDev.value)} else {}) - (if fd >= 0 then {Fd(fd)} else {})
  {
    var a := if gbmDev.Some? then [DestroyGbmDevice(gbmDev.value)] else [];
    var b := if fd >= 0 then [Close(fd)] else [];
    if gbmDev.Some? { OneCall(DestroyGbmDevice(gbmDev.value)); }
    if fd >= 0 { OneCall(Close(fd)); }
    assert AcquiresNothing(a) && AcquiresNothing(b);
    AcquiresNothingAppend(a, b);
    ReleasedAllAppend(a, b);
    ReleasingLog(live, a + b);
  }

  /** Deinitialising right after an initialisation gives back what it acquired,
      when that was not live already. */
  lemma GbmInitThenDeinit(live: set<Res>, newFd: int, device: Option<nat>)
    requires newFd >= 0 ==> Fd(newFd) !in live
    requires device.Some? ==> GbmDevice(device.value) !in live
    ensures ApplyAll(live, GbmInitCalls(newFd, device) + GbmDeinitCalls(device, newFd)) == live
  {
    GbmInitAcquires(live, newFd, device);
    ApplyAllAppend(live, GbmInitCalls(newFd, device), GbmDeinitCalls(device, newFd));
    GbmDeinitReleases(ApplyAll(live, GbmInitCalls(newFd, device)), device, newFd);
  }

  /** KMSDRM_GBMDeinit on the device record; a second call makes no call. */
  method GbmDeinit(video: VideoData, log: Log)
    modifies video`gbmDev, video`drmFd, video`gbmInit, log
    ensures log.calls == old(log.calls) + GbmDeinitCalls(old(video.gbmDev), old(video.drmFd))
    ensures video.gbmDev == None && video.drmFd == (if old(video.drmFd) >= 0 then -1 else old(video.drmFd)) && !video.gbmInit
    ensures GbmDeinitCalls(video.gbmDev, video.drmFd) == []
  {
    if video.gbmDev.Some? {
      log.Record(DestroyGbmDevice(video.gbmDev.value));
      video.gbmDev := None;
    }
    if video.drmFd >= 0 {
      log.Record(Close(video.drmFd));
      video.drmFd := -1;
    }
    video.gbmInit := false;
  }

  // ---------------------------------------------------------------------------
  // KMSDRM_GLES_SetSwapInterval

  /** The swap intervals the backend supports: 0 (no vsync) and 1. */
  predicate SupportedInterval(interval: int) {
    interval == 0 || interval == 1
  }

  /** KMSDRM_GLES_SetSwapInterval: an error without EGL, the interval stored when it
      is supported, an error leaving the stored one otherwise. */
  method SetSwapInterval(dev: VideoDevice, interval: int) returns (ret: int)
    modifies dev.egl
    ensures dev.egl == null ==> ret == -1
    ensures dev.egl != null ==>
      (ret == 0 <==> SupportedInterval(interval)) && (ret == 0 || ret == -1)
      && dev.egl.swapInterval == (if SupportedInterval(interval) then interval else old(dev.egl.swapInterval))
  {
    if dev.egl == null {
      return -1;
    }
    if interval == 0 || interval == 1 {
      dev.egl.swapInterval := interval;
    } else {
      return -1;
    }
    return 0;
  }

  // ---------------------------------------------------------------------------
  // KMSDRM_GLES_InitWindow

  /** The replies InitWindow gets: whether GBM is there, the reopened descriptor, the
      GBM device, and the EGL display each library load produced (None: it failed). */
  datatype InitReplies = InitReplies(haveGbm: bool, newFd: int, device: Option<nat>, firstLoad: Option<nat>, retryLoad: Option<nat>)

  /** What InitWindow returns and leaves: the GL configuration, the EGL display of
      a library it loaded (None: it loaded none) and the calls after GBMInit's. */
  datatype InitOutcome = InitOutcome(ret: int, config: GlConfig, loaded: Option<nat>, calls: seq<Call>)

  /** The configuration of the OpenGL ES 2.0 retry. */
  function Es2(config: GlConfig): GlConfig {
    config.(profileMask := ProfileEs, majorVersion := 2, minorVersion := 0)
  }

  /** InitWindow past a successful GBMInit (lines 210-228): when no EGL library is
      loaded yet, load it on the GBM device, retrying once with OpenGL ES 2.0, and
      mark the driver loaded; then create the cursor buffer object. */
  function InitWindowSpec(eglLoaded: bool, config: GlConfig, gbmDev: Option<nat>, r: InitReplies): (o: InitOutcome)
    ensures o.ret == 0 || o.ret == -1
  {
    if eglLoaded then InitOutcome(0, config, None, [CreateCursorBO])
    else
      var first := LoadEglLibrary(gbmDev, config, r.firstLoad);
      if r.firstLoad.Some? then InitOutcome(0, config.(driverLoaded := 1), r.firstLoad, [first, CreateCursorBO])
      else
        var retry := LoadEglLibrary(gbmDev, Es2(config), r.retryLoad);
        if r.retryLoad.None? then InitOutcome(-1, Es2(config), None, [first, retry])
        else InitOutcome(0, Es2(config).(driverLoaded := 1), r.retryLoad, [first, retry, CreateCursorBO])
  }

  /** InitWindow succeeds exactly when EGL was loaded already or one of the two loads
      succeeds; the ES 2.0 profile is forced exactly when the first load failed, and
      the driver is marked loaded exactly when a load succeeded. */
  lemma InitWindowOutcome(eglLoaded: bool, config: GlConfig, gbmDev: Option<nat>, r: InitReplies)
    ensures var o := InitWindowSpec(eglLoaded, config, gbmDev, r);
      (o.ret == 0 <==> eglLoaded || r.firstLoad.Some? || r.retryLoad.Some?)
      && (o.config.profileMask == (if !eglLoaded && r.firstLoad.None? then ProfileEs else config.profileMask))
      && (o.config.driverLoaded == (if o.loaded.Some? then 1 else config.driverLoaded))
      && (o.loaded.Some? <==> !eglLoaded && o.ret == 0)
      && (o.ret == 0 <==> o.calls[|o.calls| - 1] == CreateCursorBO)
  {
  }

  /** KMSDRM_GLES_InitWindow on the video device and device records. It runs
      KMSDRM_GBMInit on every call, even when GBM is already set up: a second window
      reopens the node and replaces the descriptor and GBM device the first one used. */
  method InitWindow(dev: VideoDevice, video: VideoData, log: Log, r: InitReplies) returns (ret: int)
    modifies dev, video`drmFd, video`gbmDev, video`gbmInit, video`dumbInit, log
    ensures !r.haveGbm || r.device.None? ==>
      ret == -1 && dev.egl == old(dev.egl) && dev.glConfig == old(dev.glConfig)
      && log.calls == old(log.calls) + (if r.haveGbm then GbmInitCalls(r.newFd, r.device) else [])
    ensures r.haveGbm ==>
      video.drmFd == r.newFd && video.gbmDev == r.device && video.gbmInit && !video.dumbInit
    ensures !r.haveGbm ==>
      video.drmFd == old(video.drmFd) && video.gbmDev == old(video.gbmDev)
      && video.gbmInit == old(video.gbmInit) && video.dumbInit == old(video.dumbInit)
    ensures r.haveGbm && r.device.Some? ==>
      var o := InitWindowSpec(old(dev.egl) != null, old(dev.glConfig), r.device, r);
      ret == o.ret && dev.glConfig == o.config
      && log.calls == old(log.calls) + GbmInitCalls(r.newFd, r.device) + o.calls
      && (if o.loaded.Some? then dev.egl != null && fresh(dev.egl) && dev.egl.eglDisplay == o.loaded.value && dev.egl.swapInterval == 0
          else dev.egl == old(dev.egl))
  {
    var g := GbmInit(video, log, r.haveGbm, r.newFd, r.device);
    if g != 0 {
      return -1;
    }
    if dev.egl == null {
      var display := video.gbmDev;
      log.Record(LoadEglLibrary(display, dev.glConfig, r.firstLoad));
      if r.firstLoad.None? {
        dev.glConfig := dev.glConfig.(profileMask := ProfileEs, majorVersion := 2, minorVersion := 0);
        log.Record(LoadEglLibrary(display, dev.glConfig, r.retryLoad));
        if r.retryLoad.None? {
          return -1;
        }
        dev.egl := new EglData(r.retryLoad.value);
      } else {
        dev.egl := new EglData(r.firstLoad.value);
      }
      dev.glConfig := dev.glConfig.(driverLoaded := 1);
    }
    log.Record(CreateCursorBO);
    return 0;
  }

  // ---------------------------------------------------------------------------
  // KMSDRM_GLES_SwapWindow

  /** The page-flip flags: always the completion event, and an asynchronous flip
      exactly when EGL does not wait for vblank and the device supports it. */
  function FlipFlags(swapInterval: int, asyncSupported: bool): (flags: bv32)
    ensures flags & PageFlipEvent != 0
    ensures (flags & PageFlipAsync != 0) <==> swapInterval == 0 && asyncSupported
    ensures flags & !(PageFlipEvent | PageFlipAsync) == 0
  {
    if swapInterval == 0 && asyncSupported then PageFlipEvent | PageFlipAsync else PageFlipEvent
  }

  /** What a frame reads and does not change: whether the surfaces must be recreated,
      the EGL display and swap interval, asynchronous flip support, the double-buffer
      setting, the descriptor and the display. */
  datatype SwapContext = SwapContext(dirty: bool, eglDisplay: nat, swapInterval: int, asyncFlip: bool,
                                     doubleBuffer: bool, fd: int, disp: DisplayData)

  /** What KMSDRM_CreateSurfaces leaves behind when a frame recreates the surfaces:
      the window's GBM fields, its dirty flag, and the resources it released and
      acquired. Its code is not part of this model, so all of it is a reply. */
  datatype Recreation = Recreation(g: GbmWindow, dirty: bool, released: set<Res>, acquired: set<Res>)

  /** The replies a frame gets: the surface recreation (used only when the surfaces
      are dirty), the first wait, eglSwapBuffers, the front buffer lock, the
      framebuffer of the locked buffer object, drmModeSetCrtc, drmModePageFlip and
      the second wait. */
  datatype SwapReplies = SwapReplies(recreation: Recreation, waited: Waited, swapped: bool, locked: Option<nat>, fb: Option<int>,
                                     setCrtcRet: int, flipRet: int, waitedAgain: Waited)

  /** What a frame returns, the window's GBM fields afterwards and the calls made. */
  datatype SwapOutcome = SwapOutcome(ret: int, g: GbmWindow, calls: seq<Call>)

  /** The pending-flip flag after a wait: cleared once the flip completed, as the
      failed wait left it otherwise. */
  function AfterWait(w: Waited): bool {
    if w.Completed? then false else w.pending
  }

  /** The window's GBM fields a frame goes on with: those KMSDRM_CreateSurfaces left
      when the surfaces are dirty, the window's own otherwise. */
  function Recreated(g: GbmWindow, ctx: SwapContext, r: SwapReplies): GbmWindow {
    if ctx.dirty then r.recreation.g else g
  }

  /** The window's GBM fields after the recreation, if any, and the first wait. */
  function AfterFirstWait(g: GbmWindow, ctx: SwapContext, r: SwapReplies): GbmWindow {
    Recreated(g, ctx, r).(waitingForFlip := AfterWait(r.waited))
  }

  /** The live resources once the surfaces are recreated, if they are dirty. */
  function LiveRecreated(live: set<Res>, ctx: SwapContext, r: SwapReplies): set<Res> {
    if ctx.dirty then live + r.recreation.acquired - r.recreation.released else live
  }

  /** The calls a frame makes before its first wait, and the wait itself. */
  function WaitCalls(dirty: bool, rec: Recreation, w: Waited): seq<Call> {
    When(dirty, CreateSurfaces(rec.released, rec.acquired)) + [WaitPageflip(w)]
  }

  /** Releasing the previous front buffer, if there is one. */
  function ReleaseCalls(g: GbmWindow): seq<Call> {
    ReleaseBo(g.gs, g.bo)
  }

  /** Releasing the previous front buffer and eglSwapBuffers on the window's surface. */
  function SwapCalls(g: GbmWindow, eglDisplay: nat, swapped: bool): seq<Call> {
    ReleaseCalls(g) + [SwapBuffers(eglDisplay, g.eglSurface, swapped)]
  }

  /** Locking the new front buffer and, when that gives one, asking for its framebuffer. */
  function LockCalls(gs: Option<nat>, locked: Option<nat>, fb: Option<int>): seq<Call> {
    [LockFrontBuffer(gs, locked)] + (if locked.Some? then [FBFromBO(locked.value, fb)] else [])
  }

  /** Presenting the locked buffer object's framebuffer `fbId` (lines 287-342): a
      mode-set on the first frame, a page flip with an optional second wait after. */
  function PresentSpec(g: GbmWindow, ctx: SwapContext, fbId: int, r: SwapReplies): SwapOutcome {
    if g.bo.None? then
      SwapOutcome(if r.setCrtcRet != 0 then 0 else 1, g, [SetCrtcCall(ctx.fd, ctx.disp, fbId, r.setCrtcRet)])
    else
      var flip := PageFlip(ctx.fd, ctx.disp.crtcId, fbId, FlipFlags(ctx.swapInterval, ctx.asyncFlip), r.flipRet);
      var g1 := if r.flipRet == 0 then g.(waitingForFlip := true) else g;
      if !ctx.doubleBuffer then SwapOutcome(1, g1, [flip])
      else SwapOutcome(if r.waitedAgain.Completed? then 1 else 0, g1.(waitingForFlip := AfterWait(r.waitedAgain)), [flip, WaitPageflip(r.waitedAgain)])
  }

  /** KMSDRM_GLES_SwapWindow (lines 231-343) on the window's GBM fields. */
  function SwapWindowSpec(g: GbmWindow, ctx: SwapContext, r: SwapReplies): SwapOutcome {
    var waited := AfterFirstWait(g, ctx, r);
    var wait := WaitCalls(ctx.dirty, r.recreation, r.waited);
    if r.waited.Failed? then SwapOutcome(0, waited, wait)
    else
      var promoted := waited.(bo := waited.nextBo);
      var swap := wait + SwapCalls(waited, ctx.eglDisplay, r.swapped);
      if !r.swapped then SwapOutcome(0, promoted, swap)
      else
        var locked := promoted.(nextBo := r.locked);
        var lock := swap + LockCalls(waited.gs, r.locked, r.fb);
        if r.locked.None? || r.fb.None? then SwapOutcome(0, locked, lock)
        else
          var p := PresentSpec(locked, ctx, r.fb.value, r);
          SwapOutcome(p.ret, p.g, lock + p.calls)
  }

  /** The frame's context as the records hold it. */
  function ContextOf(dev: VideoDevice, video: VideoData, win: WindowData, disp: DisplayData): SwapContext
    requires dev.egl != null
    reads dev, dev.egl, video, win
  {
    SwapContext(win.eglSurfaceDirty, dev.egl.eglDisplay, dev.egl.swapInterval, video.asyncPageflipSupport,
                win.doubleBuffer, video.drmFd, disp)
  }

  /** The presentation step of SwapWindow on the window record. */
  method Present(dev: VideoDevice, video: VideoData, win: WindowData, disp: DisplayData, log: Log, fbId: int, r: SwapReplies)
    returns (ret: int)
    requires dev.egl != null
    modifies win`waitingForFlip, log
    ensures var p := PresentSpec(old(win.Gbm()), old(ContextOf(dev, video, win, disp)), fbId, r);
      ret == p.ret && win.Gbm() == p.g && log.calls == old(log.calls) + p.calls
  {
    if win.bo.None? {
      log.Record(SetCrtcCall(video.drmFd, disp, fbId, r.setCrtcRet));
      if r.setCrtcRet != 0 {
        return 0;
      }
      return 1;
    }
    var flags := PageFlipEvent;
    if dev.egl.swapInterval == 0 && video.asyncPageflipSupport {
      flags := flags | PageFlipAsync;
    }
    log.Record(PageFlip(video.drmFd, disp.crtcId, fbId, flags, r.flipRet));
    if r.flipRet == 0 {
      win.waitingForFlip := true;
    }
    if win.doubleBuffer {
      log.Record(WaitPageflip(r.waitedAgain));
      win.waitingForFlip := AfterWait(r.waitedAgain);
      if r.waitedAgain.Failed? {
        return 0;
      }
    }
    return 1;
  }

  /** The first wait of a frame, after recreating the surfaces if they are dirty. */
  method AwaitPrevious(win: WindowData, log: Log, rec: Recreation, w: Waited)
    modifies win`eglSurface, win`gs, win`bo, win`nextBo, win`waitingForFlip, win`eglSurfaceDirty, log
    ensures win.Gbm() == (if old(win.eglSurfaceDirty) then rec.g else old(win.Gbm())).(waitingForFlip := AfterWait(w))
    ensures win.eglSurfaceDirty == (old(win.eglSurfaceDirty) && rec.dirty)
    ensures log.calls == old(log.calls) + WaitCalls(old(win.eglSurfaceDirty), rec, w)
  {
    ghost var start := log.calls;
    ghost var dirty := win.eglSurfaceDirty;
    if win.eglSurfaceDirty {
      log.Record(CreateSurfaces(rec.released, rec.acquired));
      win.eglSurface, win.gs, win.bo, win.nextBo := rec.g.eglSurface, rec.g.gs, rec.g.bo, rec.g.nextBo;
      win.waitingForFlip := rec.g.waitingForFlip;
      win.eglSurfaceDirty := rec.dirty;
    }
    AppendAssoc(start, When(dirty, CreateSurfaces(rec.released, rec.acquired)), [WaitPageflip(w)]);
    log.Record(WaitPageflip(w));
    win.waitingForFlip := AfterWait(w);
  }

  /** Releasing the previous front buffer, promoting the next one and swapping. */
  method ReleaseAndSwap(dev: VideoDevice, win: WindowData, log: Log, swapped: bool)
    requires dev.egl != null
    modifies win`bo, log
    ensures win.bo == old(win.nextBo)
    ensures log.calls == old(log.calls) + SwapCalls(old(win.Gbm()), dev.egl.eglDisplay, swapped)
  {
    ghost var start := log.calls;
    ghost var g := win.Gbm();
    if win.bo.Some? {
      log.Record(ReleaseBuffer(win.gs, win.bo.value));
      win.bo := None;
    }
    AppendAssoc(start, ReleaseCalls(g), [SwapBuffers(dev.egl.eglDisplay, win.eglSurface, swapped)]);
    win.bo := win.nextBo;
    log.Record(SwapBuffers(dev.egl.eglDisplay, win.eglSurface, swapped));
  }

  /** Locking the new front buffer and getting its framebuffer; `ok` when both worked. */
  method LockNext(win: WindowData, log: Log, locked: Option<nat>, fb: Option<int>) returns (ok: bool)
    modifies win`nextBo, log
    ensures win.nextBo == locked
    ensures log.calls == old(log.calls) + LockCalls(win.gs, locked, fb)
    ensures ok <==> locked.Some? && fb.Some?
  {
    ghost var start := log.calls;
    win.nextBo := locked;
    log.Record(LockFrontBuffer(win.gs, locked));
    if win.nextBo.None? {
      return false;
    }
    log.Record(FBFromBO(win.nextBo.value, fb));
    return fb.Some?;
  }

  /** KMSDRM_GLES_SwapWindow on the window record, given the replies of every call. */
  method SwapWindow(dev: VideoDevice, video: VideoData, win: WindowData, disp: DisplayData, log: Log, r: SwapReplies)
    returns (ret: int)
    requires dev.egl != null
    modifies win`eglSurface, win`gs, win`bo, win`nextBo, win`waitingForFlip, win`eglSurfaceDirty, log
    ensures var o := SwapWindowSpec(old(win.Gbm()), old(ContextOf(dev, video, win, disp)), r);
      ret == o.ret && win.Gbm() == o.g && log.calls == old(log.calls) + o.calls
    ensures win.eglSurfaceDirty == (old(win.eglSurfaceDirty) && r.recreation.dirty)
  {
    ghost var start := log.calls;
    ghost var wait := WaitCalls(win.eglSurfaceDirty, r.recreation, r.waited);
    AwaitPrevious(win, log, r.recreation, r.waited);
    ghost var g := win.Gbm();
    if r.waited.Failed? {
      return 0;
    }
    ghost var swap := SwapCalls(g, dev.egl.eglDisplay, r.swapped);
    ReleaseAndSwap(dev, win, log, r.swapped);
    AppendAssoc(start, wait, swap);
    if !r.swapped {
      return 0;
    }
    ghost var lock := LockCalls(g.gs, r.locked, r.fb);
    var ok := LockNext(win, log, r.locked, r.fb);
    AppendAssoc(start, wait + swap, lock);
    if !ok {
      return 0;
    }
    ghost var before := log.calls;
    ret := Present(dev, video, win, disp, log, r.fb.value, r);
    AppendAssoc(start, wait + swap + lock, log.calls[|before|..]);
  }

  // ---------------------------------------------------------------------------
  // What a frame promises

  /** A failed first wait ends the frame at once: nothing is released, promoted or
      swapped, and the pending flag is what the wait left. */
  lemma SwapWaitFailureAborts(g: GbmWindow, ctx: SwapContext, r: SwapReplies)
    requires r.waited.Failed?
    ensures var o := SwapWindowSpec(g, ctx, r);
      o.ret == 0 && o.g == Recreated(g, ctx, r).(waitingForFlip := r.waited.pending)
      && o.calls == WaitCalls(ctx.dirty, r.recreation, r.waited)
  {
  }

  /** Whether a frame gets as far as presenting a new front buffer. */
  predicate Presents(r: SwapReplies) {
    r.waited.Completed? && r.swapped && r.locked.Some? && r.fb.Some?
  }

  /** A frame reports success exactly when it presented and the presentation held:
      the mode-set succeeded on the first frame, or, on later frames, the page flip
      was issued (even if the kernel refused it) and the optional second wait
      completed. */
  lemma SwapSucceedsIff(g: GbmWindow, ctx: SwapContext, r: SwapReplies)
    ensures var o := SwapWindowSpec(g, ctx, r);
      (o.ret == 1 <==> Presents(r) && (if Recreated(g, ctx, r).nextBo.None? then r.setCrtcRet == 0
                                        else !ctx.doubleBuffer || r.waitedAgain.Completed?))
      && (o.ret == 0 || o.ret == 1)
  {
  }

  /** The first frame (nothing promoted to the front) programs the CRTC with the new
      framebuffer and flips nothing; every later frame page-flips with the flags
      FlipFlags gives. */
  lemma SwapPresentsBy(g: GbmWindow, ctx: SwapContext, r: SwapReplies)
    requires Presents(r)
    ensures var o := SwapWindowSpec(g, ctx, r);
      var first := Recreated(g, ctx, r).nextBo.None?;
      var last := if first || !ctx.doubleBuffer then o.calls[|o.calls| - 1] else o.calls[|o.calls| - 2];
      |o.calls| >= 2
      && (first ==> last == SetCrtcCall(ctx.fd, ctx.disp, r.fb.value, r.setCrtcRet))
      && (!first ==> last == PageFlip(ctx.fd, ctx.disp.crtcId, r.fb.value, FlipFlags(ctx.swapInterval, ctx.asyncFlip), r.flipRet))
  {
  }

  /** The pending-flip flag after a frame: what a failed first wait left; after a
      page flip, set exactly when the kernel accepted it, unless the double-buffer
      wait then settled it; clear in every other case. */
  lemma SwapPendingFlag(g: GbmWindow, ctx: SwapContext, r: SwapReplies)
    ensures var o := SwapWindowSpec(g, ctx, r);
      o.g.waitingForFlip
      == if r.waited.Failed? then r.waited.pending
         else if Presents(r) && Recreated(g, ctx, r).nextBo.Some? then (if ctx.doubleBuffer then AfterWait(r.waitedAgain) else r.flipRet == 0)
         else false
  {
  }

  /** The recreation, if the surfaces are dirty, does what it reported; the wait
      changes nothing. */
  lemma WaitLedger(live: set<Res>, ctx: SwapContext, r: SwapReplies)
    ensures ApplyAll(live, WaitCalls(ctx.dirty, r.recreation, r.waited)) == LiveRecreated(live, ctx, r)
  {
    var a := When(ctx.dirty, CreateSurfaces(r.recreation.released, r.recreation.acquired));
    var b := [WaitPageflip(r.waited)];
    ApplyAllAppend(live, a, b);
    if ctx.dirty {
      assert a[..0] == [];
    }
    assert Acquired(b[0]) == {} && Released(b[0]) == {};
    InertLog(ApplyAll(live, a), b);
  }

  lemma SwapCallsRelease(live: set<Res>, g: GbmWindow, eglDisplay: nat, swapped: bool)
    ensures ApplyAll(live, SwapCalls(g, eglDisplay, swapped)) == live - BoRes(g.bo)
  {
    var a := ReleaseCalls(g);
    var b := [SwapBuffers(eglDisplay, g.eglSurface, swapped)];
    ReleaseBoReleases(g.gs, g.bo);
    OneCall(SwapBuffers(eglDisplay, g.eglSurface, swapped));
    ReleasedAllAppend(a, b);
    AcquiresNothingAppend(a, b);
    ReleasingLog(live, a + b);
  }

  lemma LockCallsAcquire(live: set<Res>, gs: Option<nat>, locked: Option<nat>, fb: Option<int>)
    ensures ApplyAll(live, LockCalls(gs, locked, fb)) == live + BoRes(locked)
  {
    var a := [LockFrontBuffer(gs, locked)];
    var b := if locked.Some? then [FBFromBO(locked.value, fb)] else [];
    OneCall(LockFrontBuffer(gs, locked));
    if locked.Some? { OneCall(FBFromBO(locked.value, fb)); }
    assert ReleasesNothing(a) && ReleasesNothing(b);
    ReleasesNothingAppend(a, b);
    AcquiredAllAppend(a, b);
    AcquiringLog(live, a + b);
  }

  lemma PresentInert(live: set<Res>, g: GbmWindow, ctx: SwapContext, fbId: int, r: SwapReplies)
    ensures ApplyAll(live, PresentSpec(g, ctx, fbId, r).calls) == live
  {
    var cs := PresentSpec(g, ctx, fbId, r).calls;
    assert forall i :: 0 <= i < |cs| ==> cs[i].SetCrtc? || cs[i].PageFlip? || cs[i].WaitPageflip?;
    InertLog(live, cs);
  }

  /** What a frame does to the live resources: what the recreation of dirty surfaces
      released and acquired; then, once the first wait completed, the release of the
      old front buffer, and, once eglSwapBuffers succeeded, the buffer object it
      locked; nothing else. */
  lemma {:induction false} SwapWindowLedger(live: set<Res>, g: GbmWindow, ctx: SwapContext, r: SwapReplies)
    ensures var live0 := LiveRecreated(live, ctx, r);
      ApplyAll(live, SwapWindowSpec(g, ctx, r).calls)
      == if r.waited.Failed? then live0
         else (live0 - BoRes(Recreated(g, ctx, r).bo)) + (if r.swapped then BoRes(r.locked) else {})
  {
    var live0 := LiveRecreated(live, ctx, r);
    var g1 := AfterFirstWait(g, ctx, r);
    var wait := WaitCalls(ctx.dirty, r.recreation, r.waited);
    WaitLedger(live, ctx, r);
    if r.waited.Completed? {
      var swap := SwapCalls(g1, ctx.eglDisplay, r.swapped);
      ApplyAllAppend(live, wait, swap);
      SwapCallsRelease(live0, g1, ctx.eglDisplay, r.swapped);
      if r.swapped {
        var lock := LockCalls(g1.gs, r.locked, r.fb);
        ApplyAllAppend(live, wait + swap, lock);
        LockCallsAcquire(live0 - BoRes(g1.bo), g1.gs, r.locked, r.fb);
        if Presents(r) {
          PresentedLedger(live, g, ctx, r);
        }
      }
    }
  }

  /** The step of `SwapWindowLedger` for a frame that reaches the presentation: the
      presentation changes nothing the lock left live. */
  lemma PresentedLedger(live: set<Res>, g: GbmWindow, ctx: SwapContext, r: SwapReplies)
    requires Presents(r)
    requires var g1 := AfterFirstWait(g, ctx, r);
      ApplyAll(live, WaitCalls(ctx.dirty, r.recreation, r.waited) + SwapCalls(g1, ctx.eglDisplay, r.swapped) + LockCalls(g1.gs, r.locked, r.fb))
      == (LiveRecreated(live, ctx, r) - BoRes(g1.bo)) + BoRes(r.locked)
    ensures ApplyAll(live, SwapWindowSpec(g, ctx, r).calls) == (LiveRecreated(live, ctx, r) - BoRes(Recreated(g, ctx, r).bo)) + BoRes(r.locked)
  {
    var g1 := AfterFirstWait(g, ctx, r);
    var before := WaitCalls(ctx.dirty, r.recreation, r.waited) + SwapCalls(g1, ctx.eglDisplay, r.swapped) + LockCalls(g1.gs, r.locked, r.fb);
    var locked := g1.(bo := g1.nextBo, nextBo := r.locked);
    var p := PresentSpec(locked, ctx, r.fb.value, r);
    assert SwapWindowSpec(g, ctx, r).calls == before + p.calls;
    ApplyAllAppend(live, before, p.calls);
    PresentInert((LiveRecreated(live, ctx, r) - BoRes(g1.bo)) + BoRes(r.locked), locked, ctx, r.fb.value, r);
  }

  /** The two buffer objects a window points at are different ones. */
  predicate BosDistinct(g: GbmWindow) {
    g.bo.Some? && g.nextBo.Some? ==> g.bo.value != g.nextBo.value
  }

  /** A frame keeps the window's buffer objects live and distinct, provided they are
      once any recreation is done, the front buffer it locks is a new one and
      eglSwapBuffers does not fail after the wait. */
  lemma SwapKeepsBosHeld(live: set<Res>, g: GbmWindow, ctx: SwapContext, r: SwapReplies)
    requires BoHeld(Recreated(g, ctx, r)) <= LiveRecreated(live, ctx, r) && BosDistinct(Recreated(g, ctx, r))
    requires r.locked.Some? ==> LockedBo(r.locked.value) !in LiveRecreated(live, ctx, r)
    requires r.waited.Completed? ==> r.swapped
    ensures var o := SwapWindowSpec(g, ctx, r);
      BoHeld(o.g) <= ApplyAll(live, o.calls) && BosDistinct(o.g)
  {
    SwapWindowLedger(live, g, ctx, r);
  }

  /** When eglSwapBuffers fails after a completed wait, the window is left pointing at
      the same buffer object as both front and next buffer. */
  lemma SwapFailureAliases(g: GbmWindow, ctx: SwapContext, r: SwapReplies)
    requires r.waited.Completed? && !r.swapped
    ensures var o := SwapWindowSpec(g, ctx, r);
      o.g.bo == o.g.nextBo == Recreated(g, ctx, r).nextBo && o.ret == 0
  {
  }

  /** ... and a next frame that does not recreate the surfaces releases that buffer
      object and promotes it to the front all the same, so the window points at a
      released buffer object. */
  lemma {:induction false} SwapAfterFailurePromotesReleased(live: set<Res>, g: GbmWindow, ctx: SwapContext, r: SwapReplies,
                                                            ctx2: SwapContext, r2: SwapReplies)
    requires r.waited.Completed? && !r.swapped && Recreated(g, ctx, r).nextBo.Some?
    requires !ctx2.dirty && r2.waited.Completed?
    ensures var g1 := Recreated(g, ctx, r);
      var o := SwapWindowSpec(g, ctx, r);
      var o2 := SwapWindowSpec(o.g, ctx2, r2);
      ReleaseBuffer(g1.gs, g1.nextBo.value) in o2.calls
      && o2.g.bo == g1.nextBo
      && LockedBo(g1.nextBo.value) !in ApplyAll(ApplyAll(live, o.calls), o2.calls) - BoRes(r2.locked)
  {
    var g1 := Recreated(g, ctx, r);
    var o := SwapWindowSpec(g, ctx, r);
    SwapWindowLedger(ApplyAll(live, o.calls), o.g, ctx2, r2);
    var o2 := SwapWindowSpec(o.g, ctx2, r2);
    var wait := WaitCalls(ctx2.dirty, r2.recreation, r2.waited);
    var swap := SwapCalls(AfterFirstWait(o.g, ctx2, r2), ctx2.eglDisplay, r2.swapped);
    assert swap[0] == ReleaseBuffer(g1.gs, g1.nextBo.value);
    assert o2.calls[|wait|] == swap[0];
  }
}
