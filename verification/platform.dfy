/**
 * The world below the KMS/DRM video backend: the kernel's DRM interface on the
 * device descriptor, libc's mmap/munmap, libgbm, EGL and the few SDL helpers the
 * backend calls without their code being part of this model.
 *
 * Every such call is an oracle. The backend records it, together with the reply
 * the oracle gave, as one `Call` in a `Log`; which kernel and library resources
 * are live afterwards is the pure fold `ApplyAll` over those calls.
 */
module Platform {

  datatype Option<T> = None | Some(value: T)

  /** An unsigned 32-bit field of a kernel request record. */
  type u32 = x: int | 0 <= x < 0x1_0000_0000

  /** The value `-1` takes once it is stored in an unsigned 32-bit field. */
  const U32MinusOne: u32 := 0xFFFF_FFFF

  /** A `void *` as the backend tests it: NULL, MAP_FAILED (`(void *)-1`, which is
      not NULL) or the memory of a mapping. */
  datatype MapPtr = Null | MapFailed | Mapped(mem: array<bv8>)

  /** An SDL software surface: its pixel memory, row pitch and bytes per pixel. */
  datatype Surface = Surface(pixels: array<bv8>, pitch: nat, bytesPerPixel: nat)

  /** The GL attributes the window code adjusts before loading EGL. */
  datatype GlConfig = GlConfig(profileMask: int, majorVersion: int, minorVersion: int, driverLoaded: int)

  /** A display mode, by its visible size. */
  datatype Mode = Mode(hdisplay: u32, vdisplay: u32)

  /** The reply of DRM_IOCTL_MODE_CREATE_DUMB: the fields the kernel fills in. */
  datatype DumbCreated = DumbCreated(handle: u32, pitch: u32, size: nat)

  /** The outcome of KMSDRM_WaitPageflip: the awaited flip completed (none is pending
      afterwards), or the wait failed, leaving the pending flag as given. */
  datatype Waited = Completed | Failed(pending: bool)

  /** One call into the kernel or a library, with the reply it got. */
  datatype Call =
    | Open(fd: int)                                   // open(devpath) returned fd
    | Close(fd: int)
    | GetDumbCap(fd: int, cap: Option<nat>)           // drmGetCap(DRM_CAP_DUMB_BUFFER); None: the query failed
    | CreateDumb(fd: int, width: nat, height: nat, bpp: nat, created: Option<DumbCreated>)
    | AddFB(fd: int, width: nat, height: nat, depth: nat, bpp: nat, pitch: nat, handle: u32, added: Option<int>)
    | MapDumb(fd: int, handle: u32, mapOffset: Option<nat>)
    | Mmap(fd: int, size: nat, offset: nat, result: MapPtr)
    | RmFB(fd: int, fbId: int)
    | DestroyDumb(fd: int, handle: u32)
    | Unmap(ptr: MapPtr, size: nat)
    | SetCrtc(fd: int, crtc: nat, fbId: int, x: nat, y: nat, connector: nat, mode: Mode, ret: int)
    | PageFlip(fd: int, crtc: nat, fbId: int, flags: bv32, ret: int)
    | WaitPageflip(waited: Waited)
    | CreateSurfaces(released: set<Res>, acquired: set<Res>) // KMSDRM_CreateSurfaces after a mode change: what it released and acquired
    | CreateRGBSurface(w: nat, h: nat, depth: nat, format: bv32, surface: Option<Surface>)
    | FreeSurface(freed: Surface)
    | SetMaster(fd: int)
    | CreateGbmDevice(fd: int, device: Option<nat>)
    | DestroyGbmDevice(gbmDev: nat)
    | MakeCurrentNone                                  // SDL_EGL_MakeCurrent(EGL_NO_SURFACE, EGL_NO_CONTEXT)
    | DestroyEglSurface(eglSurface: nat)
    | ReleaseBuffer(gs: Option<nat>, bo: nat)
    | DestroyGbmSurface(gbmSurface: nat)
    | SwapBuffers(display: nat, target: Option<nat>, ok: bool)
    | LockFrontBuffer(gs: Option<nat>, locked: Option<nat>)
    | FBFromBO(bo: nat, fb: Option<int>)
    | LoadEglLibrary(nativeDisplay: Option<nat>, config: GlConfig, loaded: Option<nat>)
    | CreateCursorBO

  /** A live kernel or library resource: an open descriptor, a framebuffer, a dumb
      buffer handle, a mapping, a software surface, a GBM device, an EGL or GBM
      surface, or a buffer object locked out of a GBM surface. */
  datatype Res =
    | Fd(fd: int) | Fb(fbId: int) | Dumb(handle: u32) | Mapping(mem: array<bv8>) | SoftSurface(surface: Surface)
    | GbmDevice(gbmDev: nat) | EglSurface(eglSurface: nat) | GbmSurface(gbmSurface: nat) | LockedBo(bo: nat)

  /** The resources a call brings to life. */
  function Acquired(c: Call): set<Res> {
    match c
    case Open(fd) => if fd >= 0 then {Fd(fd)} else {}
    case CreateDumb(_, _, _, _, created) => if created.Some? then {Dumb(created.value.handle)} else {}
    case AddFB(_, _, _, _, _, _, _, added) => if added.Some? then {Fb(added.value)} else {}
    case Mmap(_, _, _, result) => if result.Mapped? then {Mapping(result.mem)} else {}
    case CreateRGBSurface(_, _, _, _, made) => if made.Some? then {SoftSurface(made.value)} else {}
    case CreateGbmDevice(_, device) => if device.Some? then {GbmDevice(device.value)} else {}
    case LockFrontBuffer(_, locked) => if locked.Some? then {LockedBo(locked.value)} else {}
    case CreateSurfaces(_, acquired) => acquired
    case _ => {}
  }

  /** The resources a call releases. */
  function Released(c: Call): set<Res> {
    match c
    case Close(fd) => {Fd(fd)}
    case RmFB(_, fbId) => {Fb(fbId)}
    case DestroyDumb(_, handle) => {Dumb(handle)}
    case Unmap(ptr, _) => if ptr.Mapped? then {Mapping(ptr.mem)} else {}
    case FreeSurface(s) => {SoftSurface(s)}
    case DestroyGbmDevice(d) => {GbmDevice(d)}
    case DestroyEglSurface(s) => {EglSurface(s)}
    case DestroyGbmSurface(g) => {GbmSurface(g)}
    case ReleaseBuffer(_, bo) => {LockedBo(bo)}
    case CreateSurfaces(released, _) => released
    case _ => {}
  }

  /** What one call does to the live resources. */
  function Apply(live: set<Res>, c: Call): set<Res> {
    live + Acquired(c) - Released(c)
  }

  /** What a sequence of calls, made in order, does to the live resources. */
  function ApplyAll(live: set<Res>, cs: seq<Call>): set<Res>
    decreases |cs|
  {
    if cs == [] then live else Apply(ApplyAll(live, cs[..|cs| - 1]), cs[|cs| - 1])
  }

  /** Everything a sequence of calls acquires. */
  function AcquiredAll(cs: seq<Call>): set<Res>
    decreases |cs|
  {
    if cs == [] then {} else AcquiredAll(cs[..|cs| - 1]) + Acquired(cs[|cs| - 1])
  }

  /** Everything a sequence of calls releases. */
  function ReleasedAll(cs: seq<Call>): set<Res>
    decreases |cs|
  {
    if cs == [] then {} else ReleasedAll(cs[..|cs| - 1]) + Released(cs[|cs| - 1])
  }

  ghost predicate AcquiresNothing(cs: seq<Call>) {
    forall i :: 0 <= i < |cs| ==> Acquired(cs[i]) == {}
  }

  ghost predicate ReleasesNothing(cs: seq<Call>) {
    forall i :: 0 <= i < |cs| ==> Released(cs[i]) == {}
  }

  lemma ReleasesNothingAppend(a: seq<Call>, b: seq<Call>)
    requires ReleasesNothing(a) && ReleasesNothing(b)
    ensures ReleasesNothing(a + b)
  {
    assert forall i :: 0 <= i < |a + b| ==> (a + b)[i] == if i < |a| then a[i] else b[i - |a|];
  }

  lemma AcquiresNothingAppend(a: seq<Call>, b: seq<Call>)
    requires AcquiresNothing(a) && AcquiresNothing(b)
    ensures AcquiresNothing(a + b)
  {
    assert forall i :: 0 <= i < |a + b| ==> (a + b)[i] == if i < |a| then a[i] else b[i - |a|];
  }

  /** The call `c` if `cond` holds, no call otherwise. */
  function When(cond: bool, c: Call): seq<Call> {
    if cond then [c] else []
  }

  lemma WhenReleases(cond: bool, c: Call)
    ensures ReleasedAll(When(cond, c)) == if cond then Released(c) else {}
    ensures Acquired(c) == {} ==> AcquiresNothing(When(cond, c))
  {
    if cond {
      assert When(cond, c)[..0] == [];
    }
  }

  lemma AcquiredAllOne(c: Call)
    ensures AcquiredAll([c]) == Acquired(c)
  {
    assert [c][..0] == [];
  }

  /** What a log of at most four calls acquires, call by call. */
  lemma {:induction false} AcquiredAllShort(cs: seq<Call>)
    requires 1 <= |cs| <= 4
    ensures AcquiredAll(cs) == Acquired(cs[0]) + (if |cs| > 1 then Acquired(cs[1]) else {})
      + (if |cs| > 2 then Acquired(cs[2]) else {}) + (if |cs| > 3 then Acquired(cs[3]) else {})
    decreases |cs|
  {
    var init := cs[..|cs| - 1];
    if |cs| == 1 {
      assert init == [];
    } else {
      AcquiredAllShort(init);
      assert init[0] == cs[0];
      assert |cs| > 2 ==> init[1] == cs[1];
      assert |cs| > 3 ==> init[2] == cs[2];
    }
  }

  /** A log that acquires nothing leaves exactly what it did not release. */
  lemma {:induction false} ReleasingLog(live: set<Res>, cs: seq<Call>)
    requires AcquiresNothing(cs)
    ensures ApplyAll(live, cs) == live - ReleasedAll(cs)
    decreases |cs|
  {
    if cs != [] {
      ReleasingLog(live, cs[..|cs| - 1]);
      assert Acquired(cs[|cs| - 1]) == {};
    }
  }

  /** A log that releases nothing adds exactly what it acquired. */
  lemma {:induction false} AcquiringLog(live: set<Res>, cs: seq<Call>)
    requires ReleasesNothing(cs)
    ensures ApplyAll(live, cs) == live + AcquiredAll(cs)
    decreases |cs|
  {
    if cs != [] {
      AcquiringLog(live, cs[..|cs| - 1]);
      assert Released(cs[|cs| - 1]) == {};
    }
  }

  lemma {:induction false} ReleasedAllAppend(a: seq<Call>, b: seq<Call>)
    ensures ReleasedAll(a + b) == ReleasedAll(a) + ReleasedAll(b)
    decreases |b|
  {
    if b == [] {
      assert a + b == a;
    } else {
      assert (a + b)[..|a + b| - 1] == a + b[..|b| - 1];
      ReleasedAllAppend(a, b[..|b| - 1]);
    }
  }

  lemma {:induction false} AcquiredAllAppend(a: seq<Call>, b: seq<Call>)
    ensures AcquiredAll(a + b) == AcquiredAll(a) + AcquiredAll(b)
    decreases |b|
  {
    if b == [] {
      assert a + b == a;
    } else {
      assert (a + b)[..|a + b| - 1] == a + b[..|b| - 1];
      AcquiredAllAppend(a, b[..|b| - 1]);
    }
  }

  /** Running a log in two pieces is running it whole. */
  lemma {:induction false} ApplyAllAppend(live: set<Res>, a: seq<Call>, b: seq<Call>)
    ensures ApplyAll(live, a + b) == ApplyAll(ApplyAll(live, a), b)
    decreases |b|
  {
    if b == [] {
      assert a + b == a;
    } else {
      assert (a + b)[..|a + b| - 1] == a + b[..|b| - 1];
      assert (a + b)[|a + b| - 1] == b[|b| - 1];
      ApplyAllAppend(live, a, b[..|b| - 1]);
    }
  }

  /** A log that neither acquires nor releases leaves the live resources alone. */
  lemma {:induction false} InertLog(live: set<Res>, cs: seq<Call>)
    requires AcquiresNothing(cs) && ReleasesNothing(cs)
    ensures ApplyAll(live, cs) == live
    decreases |cs|
  {
    if cs != [] {
      InertLog(live, cs[..|cs| - 1]);
      assert Acquired(cs[|cs| - 1]) == {} && Released(cs[|cs| - 1]) == {};
    }
  }

  lemma AppendAssoc(a: seq<Call>, b: seq<Call>, c: seq<Call>)
    ensures (a + b) + c == a + (b + c)
  {
  }

  /** The calls a log appends after what it held before. */
  class Log {
    var calls: seq<Call>

    method Record(c: Call)
      modifies this
      ensures calls == old(calls) + [c]
    {
      calls := calls + [c];
    }
  }
}
